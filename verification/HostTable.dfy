/**
 The host table of server/common/resolver.c: open addressing with double hashing over a table of
 prime size that is less than half full, as the first insertion of a name fills it.
 */
module HostTable {
  import opened Common
  import Counting
  import opened Primes
  import opened TableSizes

  type Name = seq<Ascii>
  type Ascii = c: int | 0 <= c < 128 witness 0   // names are ASCII: char is signed

  datatype Host = Host(ip: nat, name: Name)

  const INT_MAX: nat := 0x7fff_ffff

  // ---------- the probe sequence ----------

  /** Slot k of the probe sequence of a name. */
  function Probe(h1: nat, h2: nat, k: nat, size: nat): (s: nat)
    requires size > 0
    ensures s < size
  {
    (h1 + k * h2) % size
  }

  /** The probe sequence comes to no slot twice in `size` steps. */
  lemma ProbesDiffer(h1: nat, h2: nat, j: nat, k: nat, size: nat)
    requires Prime(size) && 0 < h2 < size && j < k < size
    ensures Probe(h1, h2, j, size) != Probe(h1, h2, k, size)
  {
    if Probe(h1, h2, j, size) == Probe(h1, h2, k, size) {
      var a, b := h1 + j * h2, h1 + k * h2;
      assert a == size * (a / size) + a % size;
      assert b == size * (b / size) + b % size;
      assert h2 * (k - j) == b - a;
      ModUnique(h2 * (k - j), size, b / size - a / size, 0);
      NoZeroProduct(size, h2, k - j);
    }
  }

  /** One step of the loop, without a division. */
  lemma ProbeNext(h1: nat, h2: nat, k: nat, size: nat)
    requires size > 0 && h2 < size
    ensures var s := Probe(h1, h2, k, size) + h2;
      Probe(h1, h2, k + 1, size) == if s >= size then s - size else s
  {
    var a := h1 + k * h2;
    assert a == size * (a / size) + a % size;
    assert h1 + (k + 1) * h2 == a + h2;
    var s := a % size + h2;
    if s >= size {
      ModUnique(a + h2, size, a / size + 1, s - size);
    } else {
      ModUnique(a + h2, size, a / size, s);
    }
  }

  // ---------- hashing ----------

  function Hash(name: Name, n: nat, factor: nat, m: nat): (h: nat)
    requires n <= |name| && m > 0
    ensures h < m
  {
    if n == 0 then 0 else HashStep(Hash(name, n - 1, factor, m), factor, name[n - 1]) % m
  }

  function HashStep(h: nat, factor: nat, c: Ascii): nat {
    h * factor + c
  }

  function H1(name: Name, size: nat): (h: nat)
    requires size >= 2
    ensures h < size
  {
    Hash(name, |name|, 17, size)
  }

  function H2(name: Name, size: nat): (h: nat)
    requires size >= 2
    ensures 1 <= h < size
  {
    Hash(name, |name|, 239, size - 1) + 1
  }

  /** Every sum that getHash forms while it hashes the name fits an int. */
  predicate Fits(name: Name, size: nat)
    requires size >= 2
  {
    forall i: nat :: i < |name| ==>
      && HashStep(Hash(name, i, 17, size), 17, name[i]) <= INT_MAX
      && HashStep(Hash(name, i, 239, size - 1), 239, name[i]) <= INT_MAX
  }

  lemma SmallTableFits(name: Name, size: nat)
    requires 2 <= size <= 8985288
    ensures Fits(name, size)
  {
  }

  /** With the listed sizes the hash of every name fits an int if and only if the table has at most 8985288 slots. */
  lemma HashFitsExactly(size: nat)
    requires size in SIZES
    ensures (forall name: Name :: |name| < 128 ==> Fits(name, size)) <==> size <= 8985288
  {
    hide Fits;
    SizesTwo(size);
    if size <= 8985288 {
      forall name: Name ensures Fits(name, size) { SmallTableFits(name, size); }
    } else {
      var name := Overflowing(size);
      LargeSizes(size);
      OverflowsAt(name, size);
      assert |name| < 128;
    }
  }

  lemma SizesTwo(size: nat)
    requires size in SIZES
    ensures size >= 2
  {
  }

  lemma LargeSizes(size: nat)
    requires size in SIZES && size > 8985288
    ensures size == 11057357 || size == 16586039 || size == 24879017 || size == 37318507
  {
  }

  /** A name whose hash overflows in a table of this size, at its fifth byte. */
  function Overflowing(size: nat): (name: Name)
    ensures |name| == 5
  {
    if size == 11057357 then [96, 90, 93, 116, 81]
    else if size == 16586039 then [59, 45, 95, 36, 82]
    else [50, 105, 41, 65, 48]
  }

  lemma OverflowsAt(name: Name, size: nat)
    requires size == 11057357 || size == 16586039 || size == 24879017 || size == 37318507
    requires name == Overflowing(size)
    ensures !Fits(name, size)
  {
    hide Fits, FifthSum;
    Overflow0();
    Overflow1();
    Overflow2();
    Overflow3();
    FifthIsSum(name, size);
  }

  /** The sum formed at the fifth byte by the second hash. */
  function FifthSum(name: Name, m: nat): nat
    requires |name| == 5 && m > 0
  {
    var h2 := HashStep(name[0] % m, 239, name[1]) % m;
    var h3 := HashStep(h2, 239, name[2]) % m;
    HashStep(HashStep(h3, 239, name[3]) % m, 239, name[4])
  }

  lemma FifthIsSum(name: Name, size: nat)
    requires |name| == 5 && size >= 2 && FifthSum(name, size - 1) > INT_MAX
    ensures !Fits(name, size)
  {
    hide HashStep;
    var m := size - 1;
    assert HashStep(0, 239, name[0]) == name[0] by { FirstSum(name[0]); }
    assert Hash(name, 1, 239, m) == name[0] % m;
    assert Hash(name, 2, 239, m) == HashStep(Hash(name, 1, 239, m), 239, name[1]) % m;
    assert Hash(name, 3, 239, m) == HashStep(Hash(name, 2, 239, m), 239, name[2]) % m;
    assert HashStep(Hash(name, 4, 239, m), 239, name[4]) == FifthSum(name, m);
  }

  lemma FirstSum(c: Ascii)
    ensures HashStep(0, 239, c) == c
  {
  }

  lemma Overflow0()
    ensures FifthSum([96, 90, 93, 116, 81], 11057356) > INT_MAX
  {
  }

  lemma Overflow1()
    ensures FifthSum([59, 45, 95, 36, 82], 16586038) > INT_MAX
  {
  }

  lemma Overflow2()
    ensures FifthSum([50, 105, 41, 65, 48], 24879016) > INT_MAX
  {
  }

  lemma Overflow3()
    ensures FifthSum([50, 105, 41, 65, 48], 37318506) > INT_MAX
  {
  }

  // ---------- the table ----------

  predicate Full(t: seq<Option<Host>>, s: int) {
    0 <= s < |t| && t[s].Some?
  }

  /** The first k slots that a name probes are taken. */
  ghost predicate Taken(t: seq<Option<Host>>, name: Name, k: nat)
    requires |t| >= 2
  {
    forall j: nat :: j < k ==> Full(t, Probe(H1(name, |t|), H2(name, |t|), j, |t|))
  }

  /** The name is found at step k of its probe sequence. */
  ghost predicate FoundAt(t: seq<Option<Host>>, name: Name, ip: nat, k: nat)
    requires |t| >= 2
  {
    Taken(t, name, k) && t[Probe(H1(name, |t|), H2(name, |t|), k, |t|)] == Some(Host(ip, name))
  }

  ghost predicate Found(t: seq<Option<Host>>, name: Name, ip: nat)
    requires |t| >= 2
  {
    exists k: nat :: FoundAt(t, name, ip, k)
  }

  /** The slots hold the map, each name where its probe sequence leads. */
  ghost predicate Holds(t: seq<Option<Host>>, m: map<Name, nat>)
    requires |t| >= 2
  {
    && (forall name :: name in m ==> Found(t, name, m[name]))
    && (forall s :: Full(t, s) ==> t[s].value.name in m && m[t[s].value.name] == t[s].value.ip)
  }

  ghost function FullSlots(t: seq<Option<Host>>): set<int> {
    set s | 0 <= s < |t| && Full(t, s)
  }

  /** As many probes of full slots as there are full slots at most: the search ends. */
  lemma ProbesBound(t: seq<Option<Host>>, name: Name, k: nat)
    requires Prime(|t|) && |t| >= 2 && k <= |t| && Taken(t, name, k)
    ensures k <= |FullSlots(t)|
  {
    hide Probe, Prime, H1, H2;
    var h1, h2 := H1(name, |t|), H2(name, |t|);
    var f := map j: nat | j in Steps(k) :: Probe(h1, h2, j, |t|);
    forall x, y | x in f && y in f && x != y ensures f[x] != f[y] {
      ProbesDiffer(h1, h2, if x < y then x else y, if x < y then y else x, |t|);
    }
    forall x | x in f ensures f[x] in FullSlots(t) {
      assert Full(t, Probe(h1, h2, x, |t|));
    }
    Counting.InjectionBound(Steps(k), FullSlots(t), f);
  }

  function Steps(k: nat): (s: set<nat>)
    ensures forall j: nat :: j in s <==> j < k
    ensures |s| == k
  {
    if k == 0 then {} else Steps(k - 1) + {k - 1}
  }

  /** The search for a name that is in the map does not come to an empty slot. */
  lemma Present(t: seq<Option<Host>>, m: map<Name, nat>, name: Name, k: nat)
    requires |t| >= 2 && Holds(t, m) && name in m
    requires forall j: nat :: j < k ==> Other(t, name, j)
    ensures Full(t, Probe(H1(name, |t|), H2(name, |t|), k, |t|))
  {
    hide Probe, H1, H2;
    var j: nat :| FoundAt(t, name, m[name], j);
    assert j < k ==> Other(t, name, j);
  }

  /** Step j of the search finds another name. */
  ghost predicate Other(t: seq<Option<Host>>, name: Name, j: nat)
    requires |t| >= 2
  {
    var h := t[Probe(H1(name, |t|), H2(name, |t|), j, |t|)];
    h.Some? && h.value.name != name
  }

  /** Filling an empty slot at the end of a name's probe sequence adds the name and moves nothing. */
  lemma InsertHolds(t: seq<Option<Host>>, m: map<Name, nat>, name: Name, ip: nat, k: nat, s: nat)
    requires |t| >= 2 && Holds(t, m) && Taken(t, name, k) && name !in m
    requires s == Probe(H1(name, |t|), H2(name, |t|), k, |t|) && t[s] == None
    ensures Holds(t[s := Some(Host(ip, name))], m[name := ip])
    ensures FullSlots(t[s := Some(Host(ip, name))]) == FullSlots(t) + {s} && s !in FullSlots(t)
  {
    hide Probe, H1, H2;
    var u := t[s := Some(Host(ip, name))];
    assert forall i :: Full(t, i) ==> Full(u, i) && u[i] == t[i];
    var m' := m[name := ip];
    forall x | x in m' ensures Found(u, x, m'[x]) {
      if x == name {
        assert FoundAt(u, name, ip, k);
      } else {
        var j: nat :| FoundAt(t, x, m[x], j);
        assert FoundAt(u, x, m[x], j);
      }
    }
  }

  class Table {
    const htable: array<Option<Host>>
    ghost var hosts: map<Name, nat>

    ghost predicate Valid()
      reads this, htable
    {
      && Prime(htable.Length)
      && Holds(htable[..], hosts)
      && |FullSlots(htable[..])| <= |hosts| < htable.Length
    }

    constructor (size: nat)
      requires Prime(size)
      ensures Valid() && hosts == map[] && htable.Length == size && fresh(htable)
    {
      htable := new Option<Host>[size](_ => None);
      hosts := map[];
      new;
      assert FullSlots(htable[..]) == {};
    }

    /** The probe loop: it stops at the name or at an empty slot, because the probes are distinct and a slot is empty. */
    method Search(name: Name, start: nat, h2: nat) returns (s: nat, ghost k: nat)
      requires Valid() && htable.Length >= 2
      requires start == H1(name, htable.Length) && h2 == H2(name, htable.Length)
      ensures s == Probe(start, h2, k, htable.Length) && Taken(htable[..], name, k)
      ensures htable[s] == None || htable[s].value.name == name
      ensures htable[s] == None ==> forall j: nat :: j < k ==> Other(htable[..], name, j)
    {
      hide Prime, Probe, H1, H2, FullSlots, Holds;
      var size := htable.Length;
      ghost var t := htable[..];
      s, k := start, 0;
      ProbeFirst(name, size);
      while htable[s].Some?
        invariant k < size && s == Probe(start, h2, k, size) && Taken(t, name, k)
        invariant forall j: nat :: j < k ==> Other(t, name, j)
        decreases size - k
      {
        if htable[s].value.name == name { return; }
        ProbeNext(start, h2, k, size);
        assert Full(t, Probe(start, h2, k, size));
        k := k + 1;
        ProbesBound(t, name, k);
        s := s + h2;
        if s >= size { s := s - size; }
      }
    }

    /** getHash: find the host; without it, insert it if an address is given. */
    method GetHash(name: Name, ip: nat) returns (r: Option<Host>)
      requires Valid() && |name| < 128 && htable.Length >= 2 && Fits(name, htable.Length)
      requires ip != 0 && name !in hosts ==> |hosts| + 1 < htable.Length
      modifies this, htable
      ensures Valid()
      ensures hosts == if ip != 0 && name !in old(hosts) then old(hosts)[name := ip] else old(hosts)
      ensures r == if name in hosts then Some(Host(hosts[name], name)) else None
    {
      hide Prime, Probe, H1, H2, FullSlots, Taken, Found;
      PrimeIsTwo(htable.Length);
      var h1, h2 := HashName(name, htable.Length);
      var s, k := Search(name, h1, h2);
      ghost var t := htable[..];
      assert t[s] == htable[s];
      if htable[s].Some? {
        assert Full(t, s);
        return htable[s];
      }
      if name in hosts { Present(t, hosts, name, k); }
      if ip == 0 { return None; }
      InsertHolds(t, hosts, name, ip, k, s);
      htable[s] := Some(Host(ip, name));
      assert htable[..] == t[s := Some(Host(ip, name))];
      hosts := hosts[name := ip];
      r := htable[s];
    }
  }

  method HashName(name: Name, size: nat) returns (h1: nat, h2: nat)
    requires size >= 2
    ensures h1 == H1(name, size) && h2 == H2(name, size)
  {
    hide HashStep;
    h1, h2 := 0, 0;
    for i := 0 to |name|
      invariant h1 == Hash(name, i, 17, size) && h2 == Hash(name, i, 239, size - 1)
    {
      h1 := HashStep(h1, 17, name[i]) % size;
      h2 := HashStep(h2, 239, name[i]) % (size - 1);
    }
    h2 := h2 + 1;
  }

  lemma PrimeIsTwo(p: nat)
    requires Prime(p)
    ensures p >= 2
  {
  }

  lemma ProbeFirst(name: Name, size: nat)
    requires size >= 2
    ensures Probe(H1(name, size), H2(name, size), 0, size) == H1(name, size)
  {
    hide H1, H2;
  }

  // ---------- loading ----------

  /** The first size of the list, from index i on, that is more than twice the number of words. */
  function SizeFor(words: nat, i: nat): (size: Option<nat>)
    requires i <= |SIZES|
    ensures size.Some? ==> size.value in SIZES && size.value > 2 * words
    ensures size == None ==> forall k :: i <= k < |SIZES| ==> SIZES[k] <= 2 * words
    decreases |SIZES| - i
  {
    if i == |SIZES| then None else if SIZES[i] > 2 * words then Some(SIZES[i]) else SizeFor(words, i + 1)
  }

  method PickSize(words: nat) returns (size: Option<nat>)
    ensures size == SizeFor(words, 0)
    ensures size == None <==> forall s :: s in SIZES ==> s <= 2 * words
    ensures size.Some? ==> size.value > 2 * words && forall s :: s in SIZES && s < size.value ==> s <= 2 * words
  {
    hide SIZES;
    var i := 0;
    SizesGrow();
    while i < |SIZES|
      invariant 0 <= i <= |SIZES| && SizeFor(words, 0) == SizeFor(words, i)
      invariant forall k :: 0 <= k < i ==> SIZES[k] <= 2 * words
    {
      if SIZES[i] > 2 * words {
        return Some(SIZES[i]);
      }
      i := i + 1;
    }
    size := None;
  }

  lemma SizesGrow()
    ensures forall i, k :: 0 <= i < k < |SIZES| ==> SIZES[i] < SIZES[k]
  {
    forall k | 0 < k < |SIZES| ensures SIZES[k - 1] < SIZES[k] {}
    SortedFromSteps(SIZES);
  }

  lemma {:induction false} SortedFromSteps(s: seq<nat>)
    requires forall k :: 0 < k < |s| ==> s[k - 1] < s[k]
    ensures forall i, k :: 0 <= i < k < |s| ==> s[i] < s[k]
  {
    if |s| > 1 {
      var t := s[..|s| - 1];
      SortedFromSteps(t);
      forall i, k | 0 <= i < k < |s| ensures s[i] < s[k] {
        assert s[|s| - 2] < s[|s| - 1];
        if k == |s| - 1 { assert s[i] == t[i] && s[k - 1] == t[k - 1]; } else { assert s[i] == t[i] && s[k] == t[k]; }
      }
    }
  }

  /** Of several addresses for one name the first counts. */
  function FirstWins(words: seq<(Name, nat)>): map<Name, nat> {
    if words == [] then map[]
    else
      var w := words[|words| - 1];
      var m := FirstWins(words[..|words| - 1]);
      if w.0 in m then m else m[w.0 := w.1]
  }

  /** Word i is the first with its name. */
  predicate IsFirst(words: seq<(Name, nat)>, i: nat) {
    i < |words| && forall j :: 0 <= j < i ==> words[j].0 != words[i].0
  }

  lemma {:induction false} FirstWinsMeans(words: seq<(Name, nat)>, i: nat)
    requires IsFirst(words, i)
    ensures words[i].0 in FirstWins(words) && FirstWins(words)[words[i].0] == words[i].1
  {
    var rest := words[..|words| - 1];
    if i < |rest| {
      assert IsFirst(rest, i);
      FirstWinsMeans(rest, i);
    } else {
      assert forall j :: 0 <= j < |rest| ==> rest[j].0 == words[j].0 != words[i].0;
      if words[i].0 in FirstWins(rest) { var _ := FirstWinsFrom(rest, words[i].0); }
    }
  }

  /** Only names among the words are in the map. */
  lemma {:induction false} FirstWinsFrom(words: seq<(Name, nat)>, name: Name) returns (i: nat)
    requires name in FirstWins(words)
    ensures IsFirst(words, i) && words[i].0 == name
  {
    var rest := words[..|words| - 1];
    if name in FirstWins(rest) {
      i := FirstWinsFrom(rest, name);
      assert IsFirst(words, i);
    } else {
      i := |words| - 1;
      if j: nat :| j < i && words[j].0 == name {
        NameKnown(rest, j);
      }
    }
  }

  lemma {:induction false} NameKnown(words: seq<(Name, nat)>, j: nat)
    requires j < |words|
    ensures words[j].0 in FirstWins(words)
  {
    if j < |words| - 1 { NameKnown(words[..|words| - 1], j); }
  }

  /**
   The table part of kdb_load_hosts_internal: sized for the words, then filled with them. It gives up
   when no listed size is large enough. When a sum overflows int while a word is hashed, what follows
   is undefined, and the model stops there.
   */
  method LoadHosts(words: seq<(Name, nat)>) returns (t: Option<Table>, overflow: bool)
    requires forall w :: w in words ==> |w.0| < 128 && w.1 != 0
    ensures var size := SizeFor(|words|, 0);
      && (overflow <==> size.Some? && size.value >= 2 && exists i :: 0 <= i < |words| && !Fits(words[i].0, size.value))
      && (t.None? <==> size == None || overflow)
    ensures t.Some? ==>
      && fresh(t.value) && fresh(t.value.htable) && t.value.htable.Length == SizeFor(|words|, 0).value
      && t.value.Valid() && t.value.hosts == FirstWins(words)
  {
    hide Prime, SIZES, FirstWins, Holds, FullSlots, Fits, SizeFor;
    var size := PickSize(|words|);
    if size == None { return None, false; }
    SizesArePrime(size.value);
    SizesTwo(size.value);
    var table := new Table(size.value);
    assert words[..0] == [];
    NoWords();
    for i := 0 to |words|
      invariant table.Valid() && table.hosts == FirstWins(words[..i]) && table.htable.Length == size.value
      invariant fresh(table) && fresh(table.htable)
      invariant forall k :: 0 <= k < i ==> Fits(words[k].0, size.value)
    {
      if !Fits(words[i].0, size.value) { return None, true; }
      FirstWinsNext(words, i);
      var _ := table.GetHash(words[i].0, words[i].1);
    }
    assert words[..|words|] == words;
    t, overflow := Some(table), false;
  }

  lemma NoWords()
    ensures FirstWins([]) == map[]
  {
  }

  lemma FirstWinsNext(words: seq<(Name, nat)>, i: nat)
    requires i < |words|
    ensures |FirstWins(words[..i])| <= i
    ensures var m := FirstWins(words[..i]);
      FirstWins(words[..i + 1]) == if words[i].0 in m then m else m[words[i].0 := words[i].1]
  {
    assert words[..i + 1][..i] == words[..i];
    FirstWinsSize(words[..i]);
  }

  lemma {:induction false} FirstWinsSize(words: seq<(Name, nat)>)
    ensures |FirstWins(words)| <= |words|
  {
    if words != [] { FirstWinsSize(words[..|words| - 1]); }
  }
}
