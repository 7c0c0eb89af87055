/** Walking along the binary digits of a length, as the CRC combination loops do. */
module Digits {

  function Pow2(n: nat): (r: nat)
    ensures r >= 1
  {
    if n == 0 then 1 else 2 * Pow2(n - 1)
  }

  lemma Pow2Zero()
    ensures Pow2(0) == 1
  {
  }

  lemma Pow2Next(n: nat)
    ensures Pow2(n + 1) == 2 * Pow2(n)
  {
  }

  lemma {:induction false} Pow2Grows(a: nat, b: nat)
    requires a <= b
    ensures Pow2(a) <= Pow2(b)
    decreases b
  {
    if a < b { Pow2Grows(a, b - 1); }
  }

  /** Digits 0 .. t - 1 of the length are done and add up to `done`; `rest` holds the others. */
  ghost predicate Standing(t: nat, done: nat, rest: nat, length: nat) {
    done + Pow2(t) * rest == length
  }

  lemma StandingFirst(length: nat)
    ensures Standing(0, 0, length, length)
  {
  }

  lemma StandingNext(t: nat, done: nat, rest: nat, length: nat)
    requires Standing(t, done, rest, length)
    ensures Standing(t + 1, if rest % 2 == 1 then done + Pow2(t) else done, rest / 2, length)
  {
    hide Pow2;
    var p := Pow2(t);
    Pow2Next(t);
    assert Pow2(t + 1) * (rest / 2) == p * (2 * (rest / 2));
    assert rest == 2 * (rest / 2) + rest % 2;
    if rest % 2 == 1 { assert p * rest == p * (2 * (rest / 2)) + p; }
  }

  lemma StandingLast(t: nat, done: nat, length: nat)
    requires Standing(t, done, 0, length)
    ensures done == length
  {
  }

  /** A 63-bit length has no digit past the 62nd. */
  lemma StandingBound(t: nat, done: nat, rest: nat, length: nat)
    requires Standing(t, done, rest, length) && rest > 0 && length < Pow2(63)
    ensures t < 63
  {
    hide Pow2;
    if t >= 63 { Pow2Grows(63, t); Larger(Pow2(t), rest); }
  }

  lemma Larger(p: nat, rest: nat)
    requires rest > 0
    ensures p * rest >= p
  {
  }
}
