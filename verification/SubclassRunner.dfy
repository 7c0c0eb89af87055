/**
 The subclass runner of server/jobs/jobs.c (process_one_sublist), with the part of
 unlock_job that feeds it. Jobs of one class are sorted into subclasses; a thread that pops a
 subclass id from the class queue claims the subclass, drains it, releases it and looks
 again. A semaphore of 16 permits keeps subclass -1 apart from all the others.

 Any number of threads, one memory access per step, interleaved at will.
 */
module SubclassRunner {
  import opened Common

  type OpId = nat

  const MAX_SUBCLASS_THREADS := 16
  const EXCLUSIVE := -1

  datatype Pc =
    | PushJob(s: int)                // mpq_push_w (JSC->job_queue, job)
    | PushId(s: int)                 // mpq_push_w (JC->job_queue, id)
    | Allow(s: int)                  // fetch-and-add allowed_to_run_jobs
    | Claim(s: int)                  // compare-and-swap locked from 0 to 1
    | Wait(s: int, got: nat)         // sem_wait, with `got` permits so far
    | Look(s: int)                   // processed_jobs < allowed_to_run_jobs?
    | Pop(s: int)                    // mpq_pop_nw, assert (job)
    | Process(s: int)                // process_one_job
    | CountRead(s: int)              // processed_jobs ++
    | CountWrite(s: int, p: nat)
    | Unlock(s: int)                 // locked = 0
    | Recheck(s: int)                // the two reads after the unlock, in either order
    | RecheckAllowed(s: int, p: nat)
    | RecheckProcessed(s: int, a: nat)
    | Reclaim(s: int)                // compare-and-swap again
    | Post(s: int, left: nat)        // sem_post, `left` permits to give back

  datatype Sub = Sub(
    pushed: nat, taken: nat,         // jobs pushed to the subclass queue, and popped from it
    ids: nat,                        // ids of this subclass in the class queue
    allowed: nat, processed: nat, locked: bool,
    owner: OpId)                     // history: who set locked

  datatype State = State(subs: map<int, Sub>, sem: nat, ops: map<OpId, Pc>)

  function Need(s: int): nat {
    if s == EXCLUSIVE then MAX_SUBCLASS_THREADS else 1
  }

  // ---------- steps ----------

  /** What one memory access does: to its subclass, to the semaphore, and where the operation goes next (None: it returns). */
  datatype Outcome = Outcome(sub: Sub, sem: nat, next: Option<Pc>)

  /** The next access of operation id; allowedFirst picks the order of the two reads of the recheck. */
  function Access(pc: Pc, x: Sub, sem: nat, id: OpId, allowedFirst: bool): Outcome {
    match pc
    case PushJob(s) => Outcome(x.(pushed := x.pushed + 1), sem, Some(PushId(s)))
    case PushId(s) => Outcome(x.(ids := x.ids + 1), sem, None)
    case Allow(s) => Outcome(x.(allowed := x.allowed + 1), sem, Some(Claim(s)))
    case Claim(s) =>
      if x.locked then Outcome(x, sem, None) else Outcome(x.(locked := true, owner := id), sem, Some(Wait(s, 0)))
    case Wait(s, got) =>
      if got >= Need(s) then Outcome(x, sem, Some(Look(s)))
      else if sem > 0 then Outcome(x, sem - 1, Some(Wait(s, got + 1)))
      else Outcome(x, sem, Some(pc))
    case Look(s) => Outcome(x, sem, Some(if x.processed < x.allowed then Pop(s) else Unlock(s)))
    case Pop(s) =>
      if x.taken < x.pushed then Outcome(x.(taken := x.taken + 1), sem, Some(Process(s)))
      else Outcome(x, sem, Some(pc))  // the assert fails: PopNeverFails
    case Process(s) => Outcome(x, sem, Some(CountRead(s)))
    case CountRead(s) => Outcome(x, sem, Some(CountWrite(s, x.processed)))
    case CountWrite(s, p) => Outcome(x.(processed := p + 1), sem, Some(Look(s)))
    case Unlock(s) => Outcome(x.(locked := false), sem, Some(Recheck(s)))
    case Recheck(s) =>
      Outcome(x, sem, Some(if allowedFirst then RecheckProcessed(s, x.allowed) else RecheckAllowed(s, x.processed)))
    case RecheckAllowed(s, p) => Outcome(x, sem, Some(if p < x.allowed then Reclaim(s) else Post(s, Need(s))))
    case RecheckProcessed(s, a) => Outcome(x, sem, Some(if x.processed < a then Reclaim(s) else Post(s, Need(s))))
    case Reclaim(s) =>
      if x.locked then Outcome(x, sem, Some(Post(s, Need(s))))
      else Outcome(x.(locked := true, owner := id), sem, Some(Look(s)))
    case Post(s, left) => if left > 0 then Outcome(x, sem + 1, Some(Post(s, left - 1))) else Outcome(x, sem, None)
  }

  predicate Placed(st: State) {
    forall id :: id in st.ops ==> st.ops[id].s in st.subs
  }

  function Step(st: State, id: OpId, allowedFirst: bool): State
    requires id in st.ops && st.ops[id].s in st.subs
  {
    var s := st.ops[id].s;
    var o := Access(st.ops[id], st.subs[s], st.sem, id, allowedFirst);
    State(st.subs[s := o.sub], o.sem, if o.next.None? then st.ops - {id} else st.ops[id := o.next.value])
  }

  /** A job is queued (unlock_job), an id is popped from the class queue, or an operation makes its next access. */
  datatype Action = StartPush(id: OpId, s: int) | PopId(id: OpId, s: int) | Advance(id: OpId, allowedFirst: bool)

  function Act(st: State, a: Action): State {
    match a
    case StartPush(id, s) => if id in st.ops || s !in st.subs then st else st.(ops := st.ops[id := PushJob(s)])
    case PopId(id, s) =>
      if id in st.ops || s !in st.subs || st.subs[s].ids == 0 then st
      else st.(subs := st.subs[s := st.subs[s].(ids := st.subs[s].ids - 1)], ops := st.ops[id := Allow(s)])
    case Advance(id, allowedFirst) => if id in st.ops && st.ops[id].s in st.subs then Step(st, id, allowedFirst) else st
  }

  /** Subclasses -2 .. count - 1, as create_job_class_sub sets them up. */
  function FreshSubs(count: nat): (subs: map<int, Sub>)
    ensures forall s :: s in subs <==> -2 <= s < count
    ensures forall s :: s in subs ==> subs[s] == Sub(0, 0, 0, 0, 0, false, 0)
  {
    var zero := Sub(0, 0, 0, 0, 0, false, 0);
    if count == 0 then map[-2 := zero, -1 := zero] else FreshSubs(count - 1)[count - 1 := zero]
  }

  function Start(count: nat): State {
    State(FreshSubs(count), MAX_SUBCLASS_THREADS, map[])
  }

  // ---------- sums over the operations ----------

  datatype Key = Permits | Tokens(s: int)

  /** Permits an operation holds; or whether it carries an id of subclass s on its way into or out of the class queue. */
  function Weight(k: Key, pc: Pc): nat {
    match k
    case Permits =>
      if pc.Wait? then pc.got
      else if pc.Post? then pc.left
      else if pc.PushJob? || pc.PushId? || pc.Allow? || pc.Claim? then 0
      else Need(pc.s)
    case Tokens(s) => if pc == PushId(s) || pc == Allow(s) then 1 else 0
  }

  ghost function Sum(ops: map<OpId, Pc>, k: Key): nat {
    if ops == map[] then 0
    else
      var id :| id in ops;
      Weight(k, ops[id]) + Sum(ops - {id}, k)
  }

  lemma {:induction false} SumRemove(ops: map<OpId, Pc>, k: Key, id: OpId)
    requires id in ops
    ensures Sum(ops, k) == Weight(k, ops[id]) + Sum(ops - {id}, k)
    decreases |ops|
  {
    var x :| x in ops && Sum(ops, k) == Weight(k, ops[x]) + Sum(ops - {x}, k);
    if x != id {
      SumRemove(ops - {x}, k, id);
      SumRemove(ops - {id}, k, x);
      assert ops - {x} - {id} == ops - {id} - {x};
    }
  }

  lemma SumSet(ops: map<OpId, Pc>, k: Key, id: OpId, pc: Pc)
    ensures Sum(ops[id := pc], k) == Sum(ops, k) + Weight(k, pc) - (if id in ops then Weight(k, ops[id]) else 0)
  {
    SumRemove(ops[id := pc], k, id);
    assert ops[id := pc] - {id} == ops - {id};
    if id in ops { SumRemove(ops, k, id); } else { assert ops - {id} == ops; }
  }

  /** Two operations together weigh no more than all. */
  lemma SumOfTwo(ops: map<OpId, Pc>, k: Key, a: OpId, b: OpId)
    requires a in ops && b in ops && a != b
    ensures Weight(k, ops[a]) + Weight(k, ops[b]) <= Sum(ops, k)
  {
    SumRemove(ops, k, a);
    SumRemove(ops - {a}, k, b);
  }

  // ---------- invariant ----------

  /** The operation has the subclass claimed. */
  predicate Owns(pc: Pc) {
    pc.Wait? || pc.Look? || pc.Pop? || pc.Process? || pc.CountRead? || pc.CountWrite? || pc.Unlock?
  }

  /** The operation has the subclass claimed and its permits in hand: it may run jobs. */
  predicate Works(pc: Pc) {
    Owns(pc) && !pc.Wait?
  }

  /** The operation has popped a job that processed_jobs does not count yet. */
  predicate MidJob(pc: Pc) {
    pc.Process? || pc.CountRead? || pc.CountWrite?
  }

  /** The operation is inside process_one_sublist. */
  predicate Inside(pc: Pc) {
    !pc.PushJob? && !pc.PushId?
  }

  /** The operation is bound to notice that its subclass x has work left. */
  predicate WillNotice(x: Sub, pc: Pc) {
    Owns(pc) || pc.Claim? || pc.Recheck? || pc.RecheckAllowed? || pc.Reclaim?
    || (pc.RecheckProcessed? && pc.a == x.allowed)
  }

  predicate OpOk(x: Sub, id: OpId, pc: Pc) {
    && (Owns(pc) ==> x.locked && x.owner == id)
    && (pc.Wait? ==> pc.got <= Need(pc.s))
    && (pc.Post? ==> pc.left <= Need(pc.s))
    && (Owns(pc) ==> x.taken == x.processed + (if MidJob(pc) then 1 else 0))
    && (pc.Pop? || MidJob(pc) ==> x.processed < x.allowed)
    && (pc.CountWrite? ==> pc.p == x.processed)
    && (pc.RecheckAllowed? ==> pc.p <= x.processed)
    && (pc.RecheckProcessed? ==> pc.a <= x.allowed)
  }

  predicate SubOk(x: Sub, s: int, ops: map<OpId, Pc>) {
    && x.processed <= x.allowed
    && (x.locked ==> x.owner in ops && Owns(ops[x.owner]) && ops[x.owner].s == s)
    && (!x.locked ==> x.taken == x.processed)
  }

  /** Every job pushed has an id on its way, in the class queue, or handed over to the subclass. */
  ghost predicate Matched(x: Sub, s: int, ops: map<OpId, Pc>) {
    x.pushed == x.ids + x.allowed + Sum(ops, Tokens(s))
  }

  predicate Notices(x: Sub, s: int, ops: map<OpId, Pc>, id: OpId) {
    id in ops && ops[id].s == s && WillNotice(x, ops[id])
  }

  /** Work left means an operation that will notice it. */
  ghost predicate Attended(x: Sub, s: int, ops: map<OpId, Pc>) {
    x.processed < x.allowed ==> exists id :: Notices(x, s, ops, id)
  }

  ghost predicate OpsOk(st: State) requires Placed(st) {
    forall id :: id in st.ops ==> OpOk(st.subs[st.ops[id].s], id, st.ops[id])
  }

  ghost predicate SubsOk(st: State) {
    forall s :: s in st.subs ==>
      SubOk(st.subs[s], s, st.ops) && Matched(st.subs[s], s, st.ops) && Attended(st.subs[s], s, st.ops)
  }

  ghost predicate Inv(st: State) {
    Placed(st) && OpsOk(st) && SubsOk(st) && st.sem + Sum(st.ops, Permits) == MAX_SUBCLASS_THREADS
  }

  // ---------- one access keeps the invariant ----------

  function OptWeight(k: Key, next: Option<Pc>): nat {
    if next.None? then 0 else Weight(k, next.value)
  }

  /** What an access does to the operation that makes it, to the lock and to the books. */
  lemma AccessFacts(pc: Pc, x: Sub, sem: nat, id: OpId, f: bool, o: Outcome)
    requires OpOk(x, id, pc) && x.processed <= x.allowed && (!x.locked ==> x.taken == x.processed)
    requires x.locked && x.owner == id ==> Owns(pc)
    requires o == Access(pc, x, sem, id, f)
    ensures o.next.Some? ==> o.next.value.s == pc.s && OpOk(o.sub, id, o.next.value)
    ensures o.sub.processed <= o.sub.allowed && x.processed <= o.sub.processed && x.allowed <= o.sub.allowed
    ensures o.sub.locked && o.sub.owner == id ==> o.next.Some? && Owns(o.next.value)
    ensures !o.sub.locked ==> o.sub.taken == o.sub.processed
    ensures x.locked && x.owner != id ==>
      o.sub.locked && o.sub.owner == x.owner && o.sub.taken == x.taken && o.sub.processed == x.processed
    ensures o.sub.locked && o.sub.owner != id ==> x.locked && x.owner == o.sub.owner
    ensures o.sem + OptWeight(Permits, o.next) == sem + Weight(Permits, pc)
  {
  }

  lemma AccessBooks(pc: Pc, x: Sub, sem: nat, id: OpId, f: bool, o: Outcome)
    requires o == Access(pc, x, sem, id, f)
    ensures o.sub.pushed + x.ids + x.allowed + Weight(Tokens(pc.s), pc)
         == x.pushed + o.sub.ids + o.sub.allowed + OptWeight(Tokens(pc.s), o.next)
  {
  }

  /** If work is left and the operation will not notice it, then it changed nothing the others watch; it gave up only to an owner. */
  lemma AccessNotice(pc: Pc, x: Sub, sem: nat, id: OpId, f: bool, o: Outcome)
    requires OpOk(x, id, pc)
    requires o == Access(pc, x, sem, id, f)
    requires o.sub.processed < o.sub.allowed
    requires o.next.None? || !WillNotice(o.sub, o.next.value)
    ensures o.sub.allowed == x.allowed && o.sub.processed == x.processed
    ensures !WillNotice(x, pc) || (x.locked && !Owns(pc))
  {
  }

  function NextOps(ops: map<OpId, Pc>, id: OpId, next: Option<Pc>): map<OpId, Pc> {
    if next.None? then ops - {id} else ops[id := next.value]
  }

  lemma SumNext(ops: map<OpId, Pc>, k: Key, id: OpId, next: Option<Pc>)
    requires id in ops
    ensures Sum(NextOps(ops, id, next), k) + Weight(k, ops[id]) == Sum(ops, k) + OptWeight(k, next)
  {
    if next.None? { SumRemove(ops, k, id); } else { SumSet(ops, k, id, next.value); }
  }

  lemma AccessedSubOk(st: State, id: OpId, f: bool, o: Outcome)
    requires Inv(st) && id in st.ops
    requires o == Access(st.ops[id], st.subs[st.ops[id].s], st.sem, id, f)
    ensures SubOk(o.sub, st.ops[id].s, NextOps(st.ops, id, o.next))
  {
    hide Access, Sum, Matched, Attended;
    var x := st.subs[st.ops[id].s];
    assert SubOk(x, st.ops[id].s, st.ops) && OpOk(x, id, st.ops[id]);
    AccessFacts(st.ops[id], x, st.sem, id, f, o);
  }

  lemma AccessedMatched(st: State, id: OpId, f: bool, o: Outcome)
    requires Inv(st) && id in st.ops
    requires o == Access(st.ops[id], st.subs[st.ops[id].s], st.sem, id, f)
    ensures Matched(o.sub, st.ops[id].s, NextOps(st.ops, id, o.next))
  {
    hide Access, Sum, SubOk, Attended, NextOps;
    var s := st.ops[id].s;
    assert Matched(st.subs[s], s, st.ops);
    AccessBooks(st.ops[id], st.subs[s], st.sem, id, f, o);
    SumNext(st.ops, Tokens(s), id, o.next);
  }

  lemma AccessedAttended(st: State, id: OpId, f: bool, o: Outcome)
    requires Inv(st) && id in st.ops
    requires o == Access(st.ops[id], st.subs[st.ops[id].s], st.sem, id, f)
    ensures Attended(o.sub, st.ops[id].s, NextOps(st.ops, id, o.next))
  {
    hide Access, Sum, Matched;
    var pc := st.ops[id];
    var s := pc.s;
    var x := st.subs[s];
    var ops' := NextOps(st.ops, id, o.next);
    assert SubOk(x, s, st.ops) && Attended(x, s, st.ops) && OpOk(x, id, pc);
    if o.sub.processed < o.sub.allowed {
      AccessFacts(pc, x, st.sem, id, f, o);
      if o.next.Some? && WillNotice(o.sub, o.next.value) {
        assert Notices(o.sub, s, ops', id);
      } else {
        AccessNotice(pc, x, st.sem, id, f, o);
        var j :| Notices(x, s, st.ops, j);
        assert Notices(o.sub, s, ops', if j == id then x.owner else j);
      }
    }
  }

  /** Every other subclass: only its operations matter, and they stand still. */
  lemma OtherSub(ops: map<OpId, Pc>, x: Sub, t: int, id: OpId, next: Option<Pc>)
    requires id in ops && ops[id].s != t && (next.Some? ==> next.value.s == ops[id].s)
    requires SubOk(x, t, ops) && Matched(x, t, ops) && Attended(x, t, ops)
    ensures SubOk(x, t, NextOps(ops, id, next))
    ensures Matched(x, t, NextOps(ops, id, next))
    ensures Attended(x, t, NextOps(ops, id, next))
  {
    hide Sum;
    SumNext(ops, Tokens(t), id, next);
    if x.processed < x.allowed {
      var j :| Notices(x, t, ops, j);
      assert Notices(x, t, NextOps(ops, id, next), j);
    }
  }

  lemma StepKeepsInv(st: State, id: OpId, f: bool)
    requires Inv(st) && id in st.ops
    ensures Inv(Step(st, id, f))
  {
    hide Access, Sum, SubOk, Matched, Attended, Notices;
    var pc := st.ops[id];
    var s := pc.s;
    var x := st.subs[s];
    var o := Access(pc, x, st.sem, id, f);
    var ops' := NextOps(st.ops, id, o.next);
    var st' := State(st.subs[s := o.sub], o.sem, ops');
    assert Step(st, id, f) == st';
    SubOkOwner(st, id);
    AccessFacts(pc, x, st.sem, id, f, o);
    AccessedSubOk(st, id, f, o);
    AccessedMatched(st, id, f, o);
    AccessedAttended(st, id, f, o);
    SumNext(st.ops, Permits, id, o.next);
    forall t | t in st'.subs
      ensures SubOk(st'.subs[t], t, ops') && Matched(st'.subs[t], t, ops') && Attended(st'.subs[t], t, ops')
    {
      if t != s { OtherSub(st.ops, st.subs[t], t, id, o.next); }
    }
    forall j | j in ops' ensures ops'[j].s in st'.subs && OpOk(st'.subs[ops'[j].s], j, ops'[j]) {
      if j != id { assert OpOk(st.subs[st.ops[j].s], j, st.ops[j]); }
    }
  }

  lemma SubOkOwner(st: State, id: OpId)
    requires Inv(st) && id in st.ops
    ensures var x := st.subs[st.ops[id].s];
      && x.processed <= x.allowed && (!x.locked ==> x.taken == x.processed)
      && (x.locked && x.owner == id ==> Owns(st.ops[id]))
  {
    assert SubOk(st.subs[st.ops[id].s], st.ops[id].s, st.ops);
  }

  lemma ActKeepsInv(st: State, a: Action)
    requires Inv(st)
    ensures Inv(Act(st, a))
  {
    hide Inv, Step;
    match a
    case Advance(id, f) => if id in st.ops && st.ops[id].s in st.subs { StepKeepsInv(st, id, f); }
    case StartPush(id, s) =>
      if id !in st.ops && s in st.subs {
        EnterKeepsInv(st, id, PushJob(s), st.subs[s]);
        assert st.subs[s := st.subs[s]] == st.subs;
      }
    case PopId(id, s) =>
      if id !in st.ops && s in st.subs && st.subs[s].ids > 0 {
        EnterKeepsInv(st, id, Allow(s), st.subs[s].(ids := st.subs[s].ids - 1));
      }
  }

  /** A new operation comes in, perhaps with an id from the class queue. */
  lemma EnterKeepsInv(st: State, id: OpId, pc: Pc, x: Sub)
    requires Inv(st) && id !in st.ops && pc.s in st.subs
    requires (pc.PushJob? && x == st.subs[pc.s])
          || (pc.Allow? && st.subs[pc.s].ids > 0 && x == st.subs[pc.s].(ids := st.subs[pc.s].ids - 1))
    ensures Inv(State(st.subs[pc.s := x], st.sem, st.ops[id := pc]))
  {
    hide Sum;
    var st' := State(st.subs[pc.s := x], st.sem, st.ops[id := pc]);
    SumSet(st.ops, Permits, id, pc);
    forall t | t in st'.subs
      ensures SubOk(st'.subs[t], t, st'.ops) && Matched(st'.subs[t], t, st'.ops) && Attended(st'.subs[t], t, st'.ops)
    {
      var y := st.subs[t];
      assert SubOk(y, t, st.ops) && Matched(y, t, st.ops) && Attended(y, t, st.ops);
      SumSet(st.ops, Tokens(t), id, pc);
      if y.processed < y.allowed {
        var j :| Notices(y, t, st.ops, j);
        assert Notices(st'.subs[t], t, st'.ops, j);
      }
    }
    forall j | j in st'.ops ensures st'.ops[j].s in st'.subs && OpOk(st'.subs[st'.ops[j].s], j, st'.ops[j]) {
      if j != id { assert OpOk(st.subs[st.ops[j].s], j, st.ops[j]); }
    }
  }

  // ---------- all runs ----------

  /** The state after any interleaving acts of pushes, pops of ids and single accesses. */
  ghost function Run(count: nat, acts: seq<Action>): State {
    if acts == [] then Start(count) else Act(Run(count, acts[..|acts| - 1]), acts[|acts| - 1])
  }

  lemma StartInv(count: nat)
    ensures Inv(Start(count))
  {
    assert Sum(map[], Permits) == 0;
    assert forall s :: Sum(map[], Tokens(s)) == 0;
  }

  lemma {:induction false} RunKeepsInv(count: nat, acts: seq<Action>)
    ensures Inv(Run(count, acts))
  {
    hide Inv, Act, Start;
    if acts == [] {
      StartInv(count);
    } else {
      RunKeepsInv(count, acts[..|acts| - 1]);
      ActKeepsInv(Run(count, acts[..|acts| - 1]), acts[|acts| - 1]);
    }
  }

  /** Each subclass is drained by at most one operation at a time. */
  lemma {:induction false} OneDrainer(count: nat, acts: seq<Action>, a: OpId, b: OpId)
    requires a in Run(count, acts).ops && b in Run(count, acts).ops && Run(count, acts).ops[a].s == Run(count, acts).ops[b].s
    requires Owns(Run(count, acts).ops[a]) && Owns(Run(count, acts).ops[b])
    ensures a == b
  {
    var st := Run(count, acts);
    RunKeepsInv(count, acts);
    assert OpOk(st.subs[st.ops[a].s], a, st.ops[a]) && OpOk(st.subs[st.ops[b].s], b, st.ops[b]);
  }

  lemma PermitsBound(st: State)
    requires Inv(st)
    ensures Sum(st.ops, Permits) <= MAX_SUBCLASS_THREADS
  {
  }

  /** While an operation runs subclass -1, nothing else in the class runs, whatever its subclass. */
  lemma {:induction false} ExclusiveRunsAlone(count: nat, acts: seq<Action>, a: OpId, b: OpId)
    requires a in Run(count, acts).ops && b in Run(count, acts).ops
    requires Works(Run(count, acts).ops[a]) && Run(count, acts).ops[a].s == EXCLUSIVE
    requires Works(Run(count, acts).ops[b])
    ensures a == b
  {
    hide Inv, Sum;
    var st := Run(count, acts);
    RunKeepsInv(count, acts);
    if a != b {
      SumOfTwo(st.ops, Permits, a, b);
      PermitsBound(st);
    }
  }

  /** At most 16 operations of a class run jobs at once. */
  lemma {:induction false} AtMostSixteen(count: nat, acts: seq<Action>, running: set<OpId>)
    requires forall id :: id in running ==> id in Run(count, acts).ops && Works(Run(count, acts).ops[id])
    ensures |running| <= MAX_SUBCLASS_THREADS
  {
    RunKeepsInv(count, acts);
    SumOfMany(Run(count, acts).ops, running);
  }

  lemma {:induction false} SumOfMany(ops: map<OpId, Pc>, running: set<OpId>)
    requires forall id :: id in running ==> id in ops && Works(ops[id])
    ensures |running| <= Sum(ops, Permits)
    decreases |running|
  {
    if running != {} {
      var id :| id in running;
      SumOfMany(ops - {id}, running - {id});
      SumRemove(ops, Permits, id);
    }
  }

  /** assert (job) never fires: an operation about to pop a job finds one. */
  lemma {:induction false} PopNeverFails(count: nat, acts: seq<Action>, id: OpId)
    requires id in Run(count, acts).ops && Run(count, acts).ops[id].Pop?
    ensures var st := Run(count, acts); var s := st.ops[id].s;
      s in st.subs && st.subs[s].taken < st.subs[s].pushed
  {
    RunKeepsInv(count, acts);
    PopFinds(Run(count, acts), id);
  }

  /** Outside process_one_sublist nothing is left undone: the jobs handed over have been run and counted. */
  lemma {:induction false} NothingLeftBehind(count: nat, acts: seq<Action>, s: int)
    requires s in Run(count, acts).subs
    requires forall id :: id in Run(count, acts).ops && Run(count, acts).ops[id].s == s ==> !Inside(Run(count, acts).ops[id])
    ensures var x := Run(count, acts).subs[s]; !x.locked && x.processed == x.allowed && x.taken == x.processed
  {
    var st := Run(count, acts);
    RunKeepsInv(count, acts);
    assert SubOk(st.subs[s], s, st.ops) && Attended(st.subs[s], s, st.ops);
  }

  /** And the jobs still queued are exactly matched by ids in, or on the way to, the class queue; all permits are back. */
  lemma {:induction false} AtRest(count: nat, acts: seq<Action>, s: int)
    requires Run(count, acts).ops == map[] && s in Run(count, acts).subs
    ensures Run(count, acts).sem == MAX_SUBCLASS_THREADS
    ensures var x := Run(count, acts).subs[s]; x.pushed == x.processed + x.ids
  {
    NothingLeftBehind(count, acts, s);
    RunKeepsInv(count, acts);
    var st := Run(count, acts);
    assert Matched(st.subs[s], s, st.ops);
    assert Sum(st.ops, Permits) == 0 && Sum(st.ops, Tokens(s)) == 0;
  }

  // ---------- the permits cannot deadlock ----------

  /** The operation waits for a permit and there is none. */
  predicate Stuck(st: State, id: OpId)
    requires id in st.ops
  {
    st.ops[id].Wait? && st.ops[id].got < Need(st.ops[id].s) && st.sem == 0
  }

  lemma {:induction false} SumOfNothing(ops: map<OpId, Pc>, k: Key)
    requires forall id :: id in ops ==> Weight(k, ops[id]) == 0
    ensures Sum(ops, k) == 0
    decreases |ops|
  {
    if ops != map[] {
      var id :| id in ops && Sum(ops, k) == Weight(k, ops[id]) + Sum(ops - {id}, k);
      SumOfNothing(ops - {id}, k);
    }
  }

  /** If all wait, only the owner of subclass -1 can hold permits, and it holds fewer than 16. */
  lemma NotAllStuck(st: State)
    requires Inv(st) && st.ops != map[]
    ensures exists id :: id in st.ops && !Stuck(st, id)
  {
    if forall id :: id in st.ops ==> Stuck(st, id) {
      AllStuckSum(st);
      PermitsAdded(st);
    }
  }

  lemma PermitsAdded(st: State)
    requires Inv(st)
    ensures st.sem + Sum(st.ops, Permits) == MAX_SUBCLASS_THREADS
  {
  }

  lemma AllStuckSum(st: State)
    requires Inv(st) && forall id :: id in st.ops ==> Stuck(st, id)
    ensures Sum(st.ops, Permits) < MAX_SUBCLASS_THREADS
  {
    if e :| e in st.ops && st.ops[e].s == EXCLUSIVE {
      assert OpOk(st.subs[EXCLUSIVE], e, st.ops[e]);
      forall id | id in st.ops && id != e ensures Weight(Permits, st.ops[id]) == 0 {
        assert OpOk(st.subs[st.ops[id].s], id, st.ops[id]) && Stuck(st, id);
      }
      SumRemove(st.ops, Permits, e);
      SumOfNothing(st.ops - {e}, Permits);
      assert Stuck(st, e);
    } else {
      forall id | id in st.ops ensures Weight(Permits, st.ops[id]) == 0 { assert Stuck(st, id); }
      SumOfNothing(st.ops, Permits);
    }
  }

  /** An operation that is not stuck gets on with its next access. */
  lemma NotStuckMoves(st: State, id: OpId, f: bool)
    requires Inv(st) && id in st.ops && !Stuck(st, id)
    ensures Step(st, id, f) != st
  {
    hide Sum, Attended, SubsOk;
    var s := st.ops[id].s;
    PopFinds(st, id);
    var o := Access(st.ops[id], st.subs[s], st.sem, id, f);
    assert o.next.Some? ==> o.next.value != st.ops[id];
  }

  lemma PopFinds(st: State, id: OpId)
    requires Inv(st) && id in st.ops
    ensures st.ops[id].Pop? ==> st.subs[st.ops[id].s].taken < st.subs[st.ops[id].s].pushed
  {
    var s := st.ops[id].s;
    assert OpOk(st.subs[s], id, st.ops[id]) && Matched(st.subs[s], s, st.ops);
  }

  /** In every state of every run with an operation under way, some operation can move: the 16 permits cannot deadlock. */
  lemma {:induction false} NoDeadlock(count: nat, acts: seq<Action>, f: bool)
    requires Run(count, acts).ops != map[]
    ensures var st := Run(count, acts); Placed(st) && exists id :: id in st.ops && Step(st, id, f) != st
  {
    hide Run, Inv, Step;
    var st := Run(count, acts);
    RunKeepsInv(count, acts);
    InvPlaced(st);
    NotAllStuck(st);
    var id :| id in st.ops && !Stuck(st, id);
    NotStuckMoves(st, id, f);
  }

  lemma InvPlaced(st: State)
    requires Inv(st)
    ensures Placed(st)
  {
  }
}
