/**
 The blocking queue of server/common/mp-queue.c: mpq_push_w posts a counting semaphore after
 each push, mpq_pop_w and mpq_pop_nw take a permit before each pop. The semaphore is the
 custom one (mp_sem_post, mp_sem_wait, mp_sem_trywait); sleeping on the futex may end any time.
 */
module MpQueueSem {
  import Counting
  import B = MpQueueBlock
  import Q = MpQueue

  type OpId = Q.OpId

  datatype Pc =
    | Pushing                                  // inside mpq_push
    | Post                                     // add one to the semaphore
    | Pushed
    | TryRead(tries: nat, wait: bool)          // mp_sem_trywait, tries left; wait: mpq_pop_w
    | TryTake(tries: nat, wait: bool)          // subtract one
    | TryUndo(tries: nat, wait: bool)          // add it back
    | WaitRead                                 // mp_sem_wait
    | WaitTest(v: int)
    | WaitTake
    | WaitUndo
    | Popping                                  // holds a permit, inside mpq_pop
    | Popped
    | Refused                                  // mpq_pop_nw returned null without a permit

  datatype State = State(q: Q.Queue, value: int, ops: map<OpId, Pc>)

  datatype Kind = Posted | Granted | Undoing | Other

  function KindOf(pc: Pc): Kind {
    match pc
    case Pushed => Posted
    case Popping | Popped => Granted
    case TryUndo(_, _) | WaitUndo => Undoing
    case _ => Other
  }

  function Ids(ops: map<OpId, Pc>, k: Kind): set<OpId> {
    set id | id in ops && KindOf(ops[id]) == k
  }

  // ---------- steps ----------

  function To(s: State, id: OpId, pc: Pc): State {
    s.(ops := s.ops[id := pc])
  }

  /** A permit is granted; the pop proper begins. */
  function Grant(s: State, id: OpId): State {
    To(s, id, Popping).(q := Q.Begin(s.q, id, Q.PopReadHead))
  }

  function Add(s: State, n: int): State {
    s.(value := s.value + n)
  }

  /** Where an operation stands agrees with where it stands inside mpq_push or mpq_pop. */
  ghost predicate Agrees(q: Q.Queue, id: OpId, pc: Pc) {
    && (pc.Pushing? || pc.Post? || pc.Pushed? ==> id in q.ops && Q.PushPc(q.ops[id]))
    && (pc.Popping? || pc.Popped? ==> id in q.ops && !Q.PushPc(q.ops[id]))
    && (pc.Post? || pc.Pushed? ==> q.ops[id].PushDone?)
    && (pc.Popped? ==> q.ops[id].PopDone? || q.ops[id].PopNone?)
    && (id in q.ops ==> pc.Pushing? || pc.Post? || pc.Pushed? || pc.Popping? || pc.Popped?)
  }

  ghost predicate AllAgree(s: State) {
    s.q.ops.Keys <= s.ops.Keys && forall id :: id in s.ops ==> Agrees(s.q, id, s.ops[id])
  }

  ghost predicate Runs(s: State) {
    Q.Good(s.q) && AllAgree(s)
  }

  /** Inside the queue the next step is that of the queue. */
  ghost predicate Ready(s: State, id: OpId) {
    id in s.ops && (s.ops[id].Pushing? || s.ops[id].Popping? ==> Q.Ready(s.q, id))
  }

  ghost function Step(s: State, id: OpId): State
    requires Ready(s, id)
  {
    match s.ops[id]
    case Pushing => if s.q.ops[id].PushDone? then To(s, id, Post) else s.(q := Q.Step(s.q, id))
    case Post => Add(To(s, id, Pushed), 1)
    case TryRead(n, w) =>
      if n == 0 then To(s, id, if w then WaitRead else Refused)
      else if s.value > 0 then To(s, id, TryTake(n, w)) else To(s, id, TryRead(n - 1, w))
    case TryTake(n, w) => Add(if s.value > 0 then Grant(s, id) else To(s, id, TryUndo(n, w)), -1)
    case TryUndo(n, w) => Add(To(s, id, TryRead(if n == 0 then 0 else n - 1, w)), 1)
    case WaitRead => To(s, id, WaitTest(s.value))
    case WaitTest(v) => To(s, id, if v > 0 then WaitTake else WaitRead)
    case WaitTake => Add(if s.value > 0 then Grant(s, id) else To(s, id, WaitUndo), -1)
    case WaitUndo => Add(To(s, id, WaitTest(s.value + 1)), 1)
    case Popping => if s.q.ops[id].PopDone? || s.q.ops[id].PopNone? then To(s, id, Popped) else s.(q := Q.Step(s.q, id))
    case Pushed | Popped | Refused => s
  }

  // ---------- invariant ----------

  /** The semaphore value accounts for every permit, and no permit is granted that was not posted. */
  ghost predicate Balanced(s: State) {
    && s.value == |Ids(s.ops, Posted)| - |Ids(s.ops, Granted)| - |Ids(s.ops, Undoing)|
    && |Ids(s.ops, Granted)| <= |Ids(s.ops, Posted)|
  }

  /** A pop that has found its block empty finds a next block: with a permit it never gives up. */
  ghost predicate HasMore(q: Q.Queue, id: OpId)
    requires id in q.ops
  {
    var pc := q.ops[id];
    && !pc.PopNone?
    && (pc.PopReadNext? ==> pc.qb + 1 < |q.blocks|)
    && (pc.PopFirst? && pc.qb < |q.blocks| && id in q.blocks[pc.qb].ops && B.Emptied(q.blocks[pc.qb].ops[id]) ==>
          pc.qb + 1 < |q.blocks|)
  }

  ghost predicate Inv(s: State) {
    Runs(s) && Balanced(s) && forall id :: id in s.q.ops ==> HasMore(s.q, id)
  }

  lemma IdsUpdate(ops: map<OpId, Pc>, id: OpId, pc: Pc, k: Kind)
    requires id in ops
    ensures Ids(ops[id := pc], k) ==
      if KindOf(pc) == k then Ids(ops, k) + {id} else Ids(ops, k) - {id}
    ensures |Ids(ops[id := pc], k)| == |Ids(ops, k)|
      + (if KindOf(pc) == k && KindOf(ops[id]) != k then 1 else 0)
      - (if KindOf(pc) != k && KindOf(ops[id]) == k then 1 else 0)
  {
    var before, after := Ids(ops, k), Ids(ops[id := pc], k);
    assert after == if KindOf(pc) == k then before + {id} else before - {id};
  }

  // ---------- a permit holder never finds the queue empty ----------

  ghost function AllPushed(q: Q.Queue): set<Q.Pos> {
    set i, t | 0 <= i < |q.blocks| && t in q.blocks[i].pushed :: Q.Pos(i, t)
  }

  /** The pop that has taken the value at p, or that holds its ticket. */
  ghost function Taker(q: Q.Queue, p: Q.Pos): OpId
    requires Q.IsPushed(q, p) && (Q.IsPopped(q, p) || Q.IsClaimed(q, p))
  {
    if Q.IsPopped(q, p) then q.blocks[p.blk].popped[p.t] else q.blocks[p.blk].open[p.t]
  }

  /** Pop id claims or has taken the place p, and no other. */
  ghost predicate Holds(q: Q.Queue, id: OpId, p: Q.Pos) {
    && id in q.ops && !Q.PushPc(q.ops[id])
    && (q.ops[id].PopDone? ==> q.ops[id].pos == p)
    && (!q.ops[id].PopDone? ==>
          && Q.Inside(q.ops[id]) && p.blk == q.ops[id].qb < |q.blocks| && id in q.blocks[p.blk].ops
          && (B.Unsettled(q.blocks[p.blk].ops[id]) || q.blocks[p.blk].ops[id].PopGot?)
          && q.blocks[p.blk].ops[id].h == p.t)
  }

  lemma TakerHolds(q: Q.Queue, p: Q.Pos)
    requires Q.Good(q) && Q.IsPushed(q, p) && (Q.IsPopped(q, p) || Q.IsClaimed(q, p))
    ensures Holds(q, Taker(q, p), p)
  {
    var id := Taker(q, p);
    var b := q.blocks[p.blk];
    hide Q.OpOk;
    assert B.Inv(b);
    if Q.IsPopped(q, p) {
      assert Q.Took(q, id, p);
    } else {
      B.HistoryFacts(b);
      assert id in b.ops && Q.Inside(q.ops[id]);
      assert Q.OpOk(q, id);
      PopInside(q, id);
    }
  }

  /** An operation that holds a pop ticket inside a block is a pop. */
  lemma PopInside(q: Q.Queue, id: OpId)
    requires id in q.ops && id in q.began && Q.OpOk(q, id) && Q.Inside(q.ops[id])
    requires q.ops[id].qb < |q.blocks| && id in q.blocks[q.ops[id].qb].ops
    requires B.Unsettled(q.blocks[q.ops[id].qb].ops[id])
    ensures !Q.PushPc(q.ops[id])
  {
  }

  /** At the moment a pop finds the last block empty, every push has a pop of its own other than this one. */
  lemma EveryPushIsTaken(q: Q.Queue, id: OpId, p: Q.Pos)
    requires Q.Good(q) && id in q.ops && q.ops[id].PopFirst? && q.ops[id].qb + 1 == |q.blocks|
    requires var b := q.blocks[q.ops[id].qb]; id in b.ops && b.ops[id].PopReadTail? && b.lim <= b.head
    requires Q.IsPushed(q, p)
    ensures (Q.IsPopped(q, p) || Q.IsClaimed(q, p)) && Holds(q, Taker(q, p), p) && Taker(q, p) != id
  {
    assert Q.OpOk(q, id);
    assert q.ops[id].qb <= q.head;
    var b := q.blocks[p.blk];
    assert B.Inv(b);
    B.HistoryFacts(b);
    hide B.Inv;
    if p.blk < q.head { assert B.Drained(b); }
    Q.PassedBy(q, p);
    hide Q.Inv, Q.OpOk, Q.Linked, Q.Accounted;
    TakerHolds(q, p);
  }

  lemma HoldsOne(q: Q.Queue, id: OpId, p: Q.Pos, p': Q.Pos)
    requires Holds(q, id, p) && Holds(q, id, p')
    ensures p == p'
  {
  }

  lemma PermitCounted(s: State, id: OpId)
    requires Balanced(s) && id in s.ops && s.ops[id].Popping?
    ensures id in Ids(s.ops, Granted) && |Ids(s.ops, Granted)| <= |Ids(s.ops, Posted)|
  {
  }

  lemma PostedAgrees(s: State, id: OpId)
    requires AllAgree(s) && id in Ids(s.ops, Posted)
    ensures id in s.q.ops && s.q.ops[id].PushDone?
  {
    assert Agrees(s.q, id, s.ops[id]);
  }

  lemma PostedAt(s: State, id: OpId)
    requires Runs(s) && id in Ids(s.ops, Posted)
    ensures id in s.q.ops && s.q.ops[id].PushDone?
    ensures var p := s.q.ops[id].pos;
      p in AllPushed(s.q) && Q.IsPushed(s.q, p) && s.q.blocks[p.blk].pushed[p.t].owner == id
  {
    hide Q.Good, AllAgree, Ids;
    PostedAgrees(s, id);
    DoneIsPushed(s.q, id);
  }

  lemma DoneIsPushed(q: Q.Queue, id: OpId)
    requires Q.Good(q) && id in q.ops && q.ops[id].PushDone?
    ensures var p := q.ops[id].pos; Q.IsPushed(q, p) && q.blocks[p.blk].pushed[p.t].owner == id
  {
    assert Q.OpOk(q, id);
  }

  lemma PostedBound(s: State)
    requires Runs(s)
    ensures |Ids(s.ops, Posted)| <= |AllPushed(s.q)|
  {
    var posted, all := Ids(s.ops, Posted), AllPushed(s.q);
    hide Runs, AllPushed, Ids;
    forall id | id in posted
      ensures id in s.q.ops && s.q.ops[id].PushDone?
      ensures var p := s.q.ops[id].pos;
        p in all && Q.IsPushed(s.q, p) && s.q.blocks[p.blk].pushed[p.t].owner == id
    {
      PostedAt(s, id);
    }
    var f := map id | id in posted :: s.q.ops[id].pos;
    Counting.InjectionBound(posted, all, f);
  }

  /** A place with a taker other than id is accounted for by a permit other than id's. */
  lemma TakerIsGranted(s: State, id: OpId, p: Q.Pos)
    requires AllAgree(s) && Holds(s.q, id, p)
    ensures id in Ids(s.ops, Granted)
  {
    assert Agrees(s.q, id, s.ops[id]);
  }

  ghost predicate TakenIn(q: Q.Queue, p: Q.Pos, ids: set<OpId>) {
    && Q.IsPushed(q, p) && (Q.IsPopped(q, p) || Q.IsClaimed(q, p))
    && Holds(q, Taker(q, p), p) && Taker(q, p) in ids
  }

  /** Places taken by distinct pops: no more places than pops. */
  lemma TakersBound(q: Q.Queue, all: set<Q.Pos>, ids: set<OpId>)
    requires forall p :: p in all ==> TakenIn(q, p, ids)
    ensures |all| <= |ids|
  {
    var f := map p | p in all :: (assert TakenIn(q, p, ids); Taker(q, p));
    hide Holds, Taker;
    forall p, p' | p in all && p' in all && p != p' ensures f[p] != f[p'] {
      assert TakenIn(q, p, ids) && TakenIn(q, p', ids);
      if f[p] == f[p'] { HoldsOne(q, f[p], p, p'); }
    }
    forall p | p in all ensures f[p] in ids { assert TakenIn(q, p, ids); }
    Counting.InjectionBound(all, ids, f);
  }

  lemma AllTakenByOthers(s: State, id: OpId, p: Q.Pos)
    requires Runs(s) && id in s.ops && id in s.q.ops && s.q.ops[id].PopFirst? && s.q.ops[id].qb + 1 == |s.q.blocks|
    requires var b := s.q.blocks[s.q.ops[id].qb]; id in b.ops && b.ops[id].PopReadTail? && b.lim <= b.head
    requires p in AllPushed(s.q)
    ensures TakenIn(s.q, p, Ids(s.ops, Granted) - {id})
  {
    hide Q.Good, AllAgree, Holds, Taker, Ids;
    EveryPushIsTaken(s.q, id, p);
    TakerIsGranted(s, Taker(s.q, p), p);
  }

  /** With a permit in hand, a pop that finds its block empty is not in the last block. */
  lemma PermitMeansMore(s: State, id: OpId, qb: nat)
    requires Runs(s) && Balanced(s) && id in s.ops && s.ops[id].Popping?
    requires id in s.q.ops && s.q.ops[id] == Q.PopFirst(qb)
    requires qb < |s.q.blocks| && id in s.q.blocks[qb].ops
    requires s.q.blocks[qb].ops[id].PopReadTail? && s.q.blocks[qb].lim <= s.q.blocks[qb].head
    ensures qb + 1 < |s.q.blocks|
  {
    hide Runs, AllPushed, TakenIn, Ids, Balanced;
    if qb + 1 == |s.q.blocks| {
      var all, others := AllPushed(s.q), Ids(s.ops, Granted) - {id};
      PermitCounted(s, id);
      PostedBound(s);
      forall p | p in all ensures TakenIn(s.q, p, others) {
        AllTakenByOthers(s, id, p);
      }
      TakersBound(s.q, all, others);
    }
  }

  // ---------- steps keep the invariant ----------

  lemma OthersHaveMore(q: Q.Queue, q': Q.Queue, id: OpId, j: OpId)
    requires j in q.ops && j != id && HasMore(q, j) && Q.Grows(q, q', id) && Q.Linked(q)
    ensures j in q'.ops && HasMore(q', j)
  {
    var pc := q.ops[j];
    if pc.PopFirst? {
      assert B.Grows(q.blocks[pc.qb], q'.blocks[pc.qb], id);
    }
  }

  lemma InsideHasMore(q: Q.Queue, id: OpId, qb: nat)
    requires Q.Linked(q) && id in q.ops && q.ops[id] == Q.PopFirst(qb) && HasMore(q, id)
    requires B.RunsDry(q.blocks[qb], id) ==> qb + 1 < |q.blocks|
    ensures var q' := Q.StepInside(q, id, Q.PopFirst(qb)); id in q'.ops && HasMore(q', id)
  {
    hide B.Step;
  }

  /** Where a pop can go from each place, as far as running dry is concerned. */
  lemma OwnStepHasMore(q: Q.Queue, id: OpId)
    requires Q.Linked(q) && id in q.ops && HasMore(q, id) && (q.ops[id].PushLink? ==> q.ops[id].size > 0)
    requires q.ops[id].PopFirst? && B.RunsDry(q.blocks[q.ops[id].qb], id) ==> q.ops[id].qb + 1 < |q.blocks|
    ensures id in Q.Step(q, id).ops && HasMore(Q.Step(q, id), id)
  {
    hide B.Step, B.Fresh, B.RunsDry;
    if q.ops[id].PopFirst? { InsideHasMore(q, id, q.ops[id].qb); }
  }

  /** A pop with a permit that is about to find its block empty finds another block. */
  lemma NewlyEmptied(s: State, id: OpId, qb: nat)
    requires Runs(s) && Balanced(s) && id in s.ops && s.ops[id].Popping? && id in s.q.ops
    requires s.q.ops[id] == Q.PopFirst(qb) && qb < |s.q.blocks| && id in s.q.blocks[qb].ops
    requires |s.q.blocks[qb].cells| > 0 && B.RunsDry(s.q.blocks[qb], id)
    ensures qb + 1 < |s.q.blocks|
  {
    hide Balanced, B.Inv, B.RunsDry, AllAgree, Q.Inv, Q.Linked, Q.Accounted;
    Q.IsInside(s.q, id);
    B.RunsDryFacts(s.q.blocks[qb], id);
    PermitMeansMore(s, id, qb);
  }

  lemma FirstIsLinked(q: Q.Queue, id: OpId)
    requires Q.Linked(q) && id in q.ops && q.ops[id].PopFirst?
    ensures q.ops[id].qb < |q.blocks| && id in q.blocks[q.ops[id].qb].ops && |q.blocks[q.ops[id].qb].cells| > 0
  {
  }

  lemma QueueStepHasMore(s: State, id: OpId)
    requires Inv(s) && id in s.ops && id in s.q.ops && (s.ops[id].Popping? || s.ops[id].Pushing?)
    requires Q.Good(Q.Step(s.q, id))
    ensures var q' := Q.Step(s.q, id);
      Q.Grows(s.q, q', id) && Q.StaysKind(s.q, q', id) && forall j :: j in q'.ops ==> HasMore(q', j)
  {
    hide Q.Inv, Q.Linked, Q.Accounted, Balanced, B.RunsDry, Q.Step, AllAgree, HasMore, Q.Grows;
    var q := s.q;
    Q.GoodReady(q, id);
    var q' := Q.Step(q, id);
    Q.StepGrows(q, id);
    if s.ops[id].Popping? && q.ops[id].PopFirst? {
      FirstIsLinked(q, id);
      if B.RunsDry(q.blocks[q.ops[id].qb], id) {
        NewlyEmptied(s, id, q.ops[id].qb);
      }
    }
    if s.ops[id].Pushing? { PushNotFirst(s, id); }
    OwnStepHasMore(q, id);
    forall j | j in q'.ops ensures HasMore(q', j) {
      if j != id { OthersHaveMore(q, q', id, j); }
    }
  }

  lemma PushNotFirst(s: State, id: OpId)
    requires AllAgree(s) && id in s.ops && s.ops[id].Pushing?
    ensures id in s.q.ops && Q.PushPc(s.q.ops[id]) && !s.q.ops[id].PopFirst?
  {
    assert Agrees(s.q, id, s.ops[id]);
  }

  lemma AgreeAfterQueueStep(s: State, q': Q.Queue, id: OpId)
    requires AllAgree(s) && id in s.ops && id in s.q.ops && Q.Grows(s.q, q', id) && Q.StaysKind(s.q, q', id)
    requires s.ops[id].Pushing? || s.ops[id].Popping?
    ensures AllAgree(s.(q := q'))
  {
    hide B.Grows;
    forall j | j in s.ops ensures Agrees(q', j, s.ops[j]) {
      assert Agrees(s.q, j, s.ops[j]);
    }
  }

  lemma QueueStepKeepsInv(s: State, id: OpId)
    requires Inv(s) && id in s.ops && id in s.q.ops && (s.ops[id].Popping? || s.ops[id].Pushing?)
    ensures Inv(s.(q := Q.Step(s.q, id)))
  {
    hide Q.Inv, Q.Linked, Q.Accounted, AllAgree, HasMore, Q.Step, Q.Grows, Q.StaysKind, Ids;
    Q.GoodReady(s.q, id);
    Q.ActKeepsGood(s.q, Q.Advance(id));
    QueueStepHasMore(s, id);
    AgreeAfterQueueStep(s, Q.Step(s.q, id), id);
  }

  /** What an operation in this place contributes to the semaphore value. */
  function Weight(pc: Pc): int {
    match KindOf(pc) case Posted => 1 case Granted => -1 case Undoing => -1 case Other => 0
  }

  /** Moving id to pc while the value changes by the difference in weight keeps the books balanced. */
  lemma StaysBalanced(s: State, s': State, id: OpId, pc: Pc)
    requires Balanced(s) && id in s.ops && s'.ops == s.ops[id := pc]
    requires s'.value == s.value + Weight(pc) - Weight(s.ops[id])
    requires KindOf(pc) == Granted && KindOf(s.ops[id]) != Granted ==> s.value > 0
    requires KindOf(s.ops[id]) == Posted ==> KindOf(pc) == Posted
    ensures Balanced(s')
  {
    hide Ids;
    IdsUpdate(s.ops, id, pc, Posted);
    IdsUpdate(s.ops, id, pc, Granted);
    IdsUpdate(s.ops, id, pc, Undoing);
  }

  lemma StillAgree(s: State, s': State, id: OpId, pc: Pc)
    requires AllAgree(s) && id in s.ops && s'.ops == s.ops[id := pc] && Agrees(s'.q, id, pc)
    requires s'.q.ops.Keys <= s.q.ops.Keys + {id} && s.q.ops.Keys <= s'.q.ops.Keys
    requires forall j :: j in s.q.ops && j != id ==> s'.q.ops[j] == s.q.ops[j]
    ensures AllAgree(s')
  {
    forall j | j in s'.ops ensures Agrees(s'.q, j, s'.ops[j]) {
      assert j != id ==> Agrees(s.q, j, s.ops[j]);
    }
  }

  /** A step that only moves id, and the semaphore by as much as the kinds say. */
  lemma CountedStep(s: State, id: OpId, pc: Pc, n: int)
    requires Inv(s) && id in s.ops && Agrees(s.q, id, pc)
    requires n == Weight(pc) - Weight(s.ops[id])
    requires KindOf(pc) != Granted || KindOf(s.ops[id]) == Granted
    requires KindOf(s.ops[id]) != Posted || KindOf(pc) == Posted
    ensures Inv(Add(To(s, id, pc), n))
  {
    hide Q.Good, HasMore, Balanced, AllAgree, Agrees;
    var s' := Add(To(s, id, pc), n);
    StaysBalanced(s, s', id, pc);
    StillAgree(s, s', id, pc);
  }

  lemma GrantHasMore(q: Q.Queue, id: OpId, j: OpId)
    requires Q.Linked(q) && id !in q.ops && (j in q.ops ==> HasMore(q, j)) && (j in q.ops || j == id)
    ensures HasMore(Q.Begin(q, id, Q.PopReadHead), j)
  {
  }

  lemma GrantKeepsInv(s: State, id: OpId)
    requires Inv(s) && id in s.ops && (s.ops[id].TryTake? || s.ops[id].WaitTake?) && s.value > 0
    ensures Inv(Add(Grant(s, id), -1))
  {
    hide Q.Good, HasMore, Balanced, AllAgree;
    var s' := Add(Grant(s, id), -1);
    NotYet(s, id);
    GrantGood(s.q, id);
    StaysBalanced(s, s', id, Popping);
    StillAgree(s, s', id, Popping);
    forall j | j in s'.q.ops ensures HasMore(s'.q, j) {
      GoodLinked(s.q);
      GrantHasMore(s.q, id, j);
    }
  }

  lemma NotYet(s: State, id: OpId)
    requires AllAgree(s) && id in s.ops && (s.ops[id].TryTake? || s.ops[id].WaitTake?)
    ensures id !in s.q.ops
  {
    assert Agrees(s.q, id, s.ops[id]);
  }

  lemma GoodLinked(q: Q.Queue)
    requires Q.Good(q)
    ensures Q.Linked(q)
  {
  }

  lemma GrantGood(q: Q.Queue, id: OpId)
    requires Q.Good(q) && id !in q.ops
    ensures Q.Good(Q.Begin(q, id, Q.PopReadHead))
  {
    Q.BeginKeepsGood(q, id, Q.PopReadHead);
  }

  lemma StepKeepsInv(s: State, id: OpId)
    requires Inv(s) && id in s.ops
    ensures Inv(Step(s, id))
  {
    hide Q.Good, HasMore, Balanced, Q.Step;
    assert Agrees(s.q, id, s.ops[id]);
    match s.ops[id]
    case Pushing =>
      if s.q.ops[id].PushDone? { CountedStep(s, id, Post, 0); } else { QueueStepKeepsInv(s, id); }
    case Popping =>
      if s.q.ops[id].PopDone? || s.q.ops[id].PopNone? { CountedStep(s, id, Popped, 0); } else { QueueStepKeepsInv(s, id); }
    case TryTake(n, w) => if s.value > 0 { GrantKeepsInv(s, id); } else { CountedStep(s, id, TryUndo(n, w), -1); }
    case WaitTake => if s.value > 0 { GrantKeepsInv(s, id); } else { CountedStep(s, id, WaitUndo, -1); }
    case Post => CountedStep(s, id, Pushed, 1);
    case TryRead(n, w) =>
      CountedStep(s, id, if n == 0 then (if w then WaitRead else Refused) else if s.value > 0 then TryTake(n, w) else TryRead(n - 1, w), 0);
    case TryUndo(n, w) => CountedStep(s, id, TryRead(if n == 0 then 0 else n - 1, w), 1);
    case WaitRead => CountedStep(s, id, WaitTest(s.value), 0);
    case WaitTest(v) => CountedStep(s, id, if v > 0 then WaitTake else WaitRead, 0);
    case WaitUndo => CountedStep(s, id, WaitTest(s.value + 1), 1);
    case _ =>
  }

  // ---------- runs ----------

  datatype Action = StartPush(id: OpId, v: nat) | StartPop(id: OpId, tries: nat, wait: bool) | Advance(id: OpId)

  ghost function Act(s: State, a: Action): State {
    match a
    case StartPush(id, v) =>
      if id in s.ops || v == 0 then s else To(s, id, Pushing).(q := Q.Begin(s.q, id, Q.PushReadTail(v)))
    case StartPop(id, tries, wait) => if id in s.ops then s else To(s, id, TryRead(tries, wait))
    case Advance(id) => if Ready(s, id) then Step(s, id) else s
  }

  lemma BeginHasMore(q: Q.Queue, id: OpId, v: nat, j: OpId)
    requires Q.Linked(q) && id !in q.ops && (j in q.ops ==> HasMore(q, j)) && (j in q.ops || j == id)
    ensures HasMore(Q.Begin(q, id, Q.PushReadTail(v)), j)
  {
  }

  lemma NewIds(ops: map<OpId, Pc>, id: OpId, pc: Pc, k: Kind)
    requires id !in ops && KindOf(pc) == Other
    ensures k != Other ==> Ids(ops[id := pc], k) == Ids(ops, k)
  {
  }

  lemma StartKeepsBalanced(s: State, s': State, id: OpId, pc: Pc)
    requires Balanced(s) && id !in s.ops && s'.ops == s.ops[id := pc] && s'.value == s.value && KindOf(pc) == Other
    ensures Balanced(s')
  {
    hide Ids;
    NewIds(s.ops, id, pc, Posted);
    NewIds(s.ops, id, pc, Granted);
    NewIds(s.ops, id, pc, Undoing);
  }

  lemma StartPushKeepsInv(s: State, id: OpId, v: nat)
    requires Inv(s) && id !in s.ops && v != 0
    ensures Inv(To(s, id, Pushing).(q := Q.Begin(s.q, id, Q.PushReadTail(v))))
  {
    hide Q.Good, HasMore, Balanced;
    var s' := To(s, id, Pushing).(q := Q.Begin(s.q, id, Q.PushReadTail(v)));
    assert id !in s.q.ops;
    PushGood(s.q, id, v);
    StartKeepsBalanced(s, s', id, Pushing);
    forall j | j in s'.ops ensures Agrees(s'.q, j, s'.ops[j]) {
      assert j != id ==> Agrees(s.q, j, s.ops[j]);
    }
    forall j | j in s'.q.ops ensures HasMore(s'.q, j) {
      GoodLinked(s.q);
      BeginHasMore(s.q, id, v, j);
    }
  }

  lemma PushGood(q: Q.Queue, id: OpId, v: nat)
    requires Q.Good(q) && id !in q.ops && v != 0
    ensures Q.Good(Q.Begin(q, id, Q.PushReadTail(v)))
  {
    Q.BeginKeepsGood(q, id, Q.PushReadTail(v));
  }

  lemma StartPopKeepsInv(s: State, id: OpId, tries: nat, wait: bool)
    requires Inv(s) && id !in s.ops
    ensures Inv(To(s, id, TryRead(tries, wait)))
  {
    hide Q.Good, HasMore, Balanced;
    var s' := To(s, id, TryRead(tries, wait));
    assert id !in s.q.ops;
    StartKeepsBalanced(s, s', id, TryRead(tries, wait));
    forall j | j in s'.ops ensures Agrees(s'.q, j, s'.ops[j]) {
      assert j != id ==> Agrees(s.q, j, s.ops[j]);
    }
  }

  /** A queue made by alloc_mp_queue_w: empty, with a zero semaphore. */
  ghost function Start(): State {
    State(Q.Empty(), 0, map[])
  }

  /** The state after a run: any number of mpq_push_w, mpq_pop_w and mpq_pop_nw calls, interleaved at will. */
  ghost function Run(acts: seq<Action>): State {
    if acts == [] then Start() else Act(Run(acts[..|acts| - 1]), acts[|acts| - 1])
  }

  lemma {:induction false} RunKeepsInv(acts: seq<Action>)
    ensures Inv(Run(acts))
  {
    if acts == [] {
      StartInv();
    } else {
      hide Inv, Act;
      RunKeepsInv(acts[..|acts| - 1]);
      ActKeepsInv(Run(acts[..|acts| - 1]), acts[|acts| - 1]);
    }
  }

  lemma StartInv()
    ensures Inv(Start())
  {
    Q.EmptyGood();
  }

  /** No operation of a run is ever stuck. */
  lemma {:induction false} AlwaysReady(acts: seq<Action>, id: OpId)
    requires id in Run(acts).ops
    ensures Ready(Run(acts), id)
  {
    hide Q.Good, Q.Ready, Balanced, HasMore;
    var s := Run(acts);
    RunKeepsInv(acts);
    assert Agrees(s.q, id, s.ops[id]);
    if s.ops[id].Pushing? || s.ops[id].Popping? { Q.GoodReady(s.q, id); }
  }

  lemma ActKeepsInv(s: State, a: Action)
    requires Inv(s)
    ensures Inv(Act(s, a))
  {
    hide Q.Good, AllAgree, Balanced, HasMore, Step;
    match a
    case StartPush(id, v) => if id !in s.ops && v != 0 { StartPushKeepsInv(s, id, v); }
    case StartPop(id, tries, wait) => if id !in s.ops { StartPopKeepsInv(s, id, tries, wait); }
    case Advance(id) => if Ready(s, id) { StepKeepsInv(s, id); }
  }

  /** A pop with a permit that has returned has returned a value that was pushed. */
  lemma PopYields(s: State, id: OpId)
    requires Inv(s) && id in s.ops && s.ops[id].Popped?
    ensures
      && id in s.q.ops && s.q.ops[id].PopDone? && s.q.ops[id].val != 0
      && Q.IsPopped(s.q, s.q.ops[id].pos) && Q.IsPushed(s.q, s.q.ops[id].pos)
      && s.q.blocks[s.q.ops[id].pos.blk].pushed[s.q.ops[id].pos.t].val == s.q.ops[id].val
  {
    assert Agrees(s.q, id, s.ops[id]) && HasMore(s.q, id);
    assert Q.OpOk(s.q, id);
  }

  /**
   The asserts after the pops never fire: in every run, every mpq_pop entered with a permit
   that returns at all returns a value that was pushed.
   */
  lemma {:induction false} PermitAlwaysYields(acts: seq<Action>, id: OpId)
    requires id in Run(acts).ops && Run(acts).ops[id].Popped?
    ensures var q := Run(acts).q;
      && id in q.ops && q.ops[id].PopDone? && q.ops[id].val != 0
      && Q.IsPopped(q, q.ops[id].pos) && Q.IsPushed(q, q.ops[id].pos)
      && q.blocks[q.ops[id].pos.blk].pushed[q.ops[id].pos.t].val == q.ops[id].val
  {
    RunKeepsInv(acts);
    PopYields(Run(acts), id);
  }

  /** No mpq_pop entered through a permit ever returns null. */
  lemma {:induction false} NeverNull(acts: seq<Action>, id: OpId)
    requires id in Run(acts).q.ops
    ensures !Run(acts).q.ops[id].PopNone?
  {
    RunKeepsInv(acts);
    assert HasMore(Run(acts).q, id);
  }

  /** Permits granted never exceed posts, and every post follows a completed push of its own. */
  lemma {:induction false} PermitsFollowPushes(acts: seq<Action>)
    ensures var s := Run(acts);
      && |Ids(s.ops, Granted)| <= |Ids(s.ops, Posted)| <= |AllPushed(s.q)|
      && forall id :: id in Ids(s.ops, Posted) ==> id in s.q.ops && s.q.ops[id].PushDone?
  {
    var s := Run(acts);
    hide Q.Good, Ids, AllPushed, HasMore;
    RunKeepsInv(acts);
    PostedBound(s);
    forall id | id in Ids(s.ops, Posted) ensures id in s.q.ops && s.q.ops[id].PushDone? {
      PostedAgrees(s, id);
    }
  }

  // ---------- pops made one at a time ----------

  predicate IsPop(pc: Pc) {
    !pc.Pushing? && !pc.Post? && !pc.Pushed?
  }

  /** The call has returned. */
  predicate Over(pc: Pc) {
    pc.Popped? || pc.Refused?
  }

  /** No pop is under way, except perhaps id. */
  predicate NoPopBut(ops: map<OpId, Pc>, id: OpId) {
    forall j :: j in ops && j != id && IsPop(ops[j]) ==> Over(ops[j])
  }

  /** Every pop of the run begins when no other is under way. */
  ghost predicate OneAtATime(acts: seq<Action>) {
    forall k: nat :: k < |acts| && acts[k].StartPop? ==> NoPopBut(Run(acts[..k]).ops, acts[k].id)
  }

  /** The pop id has its permit, or one is free for it and nobody else is after it. */
  ghost predicate Served(s: State, id: OpId) {
    && id in s.ops
    && (s.ops[id].Popping? || s.ops[id].Popped?
        || ((s.ops[id].TryRead? || s.ops[id].TryTake?) && s.ops[id].tries >= 1
            && |Ids(s.ops, Granted)| < |Ids(s.ops, Posted)| && NoPopBut(s.ops, id)))
  }

  /** With a permit free and no other pop under way the semaphore is positive. */
  lemma PermitFree(s: State, id: OpId)
    requires Balanced(s) && Served(s, id) && !s.ops[id].Popping? && !s.ops[id].Popped?
    ensures s.value > 0
  {
    assert Ids(s.ops, Undoing) == {};
  }

  lemma OwnStepServed(s: State, id: OpId)
    requires Inv(s) && Ready(s, id) && Served(s, id)
    ensures Served(Step(s, id), id)
  {
    hide Q.Good, AllAgree, HasMore, Ids, Balanced;
    if s.ops[id].TryRead? {
      PermitFree(s, id);
      IdsUpdate(s.ops, id, TryTake(s.ops[id].tries, s.ops[id].wait), Posted);
      IdsUpdate(s.ops, id, TryTake(s.ops[id].tries, s.ops[id].wait), Granted);
    } else if s.ops[id].TryTake? {
      PermitFree(s, id);
    }
  }

  /** A step moves nothing but its operation; what has returned or pushes stays so, and keeps its kind. */
  lemma OtherMoves(s: State, j: OpId)
    requires Ready(s, j)
    ensures var s' := Step(s, j); j in s'.ops && s'.ops == s.ops[j := s'.ops[j]]
    ensures var pc, pc' := s.ops[j], Step(s, j).ops[j];
      && (Over(pc) || !IsPop(pc) ==> (Over(pc') || !IsPop(pc')) && (KindOf(pc') == Granted <==> KindOf(pc) == Granted))
      && (KindOf(pc) == Posted ==> KindOf(pc') == Posted)
  {
    hide Q.Step, Q.Begin;
  }

  lemma OtherStepServed(s: State, id: OpId, j: OpId)
    requires Inv(s) && Ready(s, j) && Served(s, id) && j != id
    ensures Served(Step(s, j), id)
  {
    hide Q.Good, AllAgree, HasMore, Ids, Balanced, Step, KindOf;
    var s' := Step(s, j);
    OtherMoves(s, j);
    if !s.ops[id].Popping? && !s.ops[id].Popped? {
      IdsUpdate(s.ops, j, s'.ops[j], Posted);
      IdsUpdate(s.ops, j, s'.ops[j], Granted);
    }
  }

  lemma NewOpServed(s: State, a: Action, id: OpId)
    requires Served(s, id) && !a.Advance?
    requires a.StartPop? ==> NoPopBut(s.ops, a.id)
    ensures Served(Act(s, a), id)
  {
    hide Ids;
    if a.id !in s.ops && a.StartPush? {
      NewIds(s.ops, a.id, Pushing, Posted);
      NewIds(s.ops, a.id, Pushing, Granted);
    }
  }

  lemma ActServed(s: State, a: Action, id: OpId)
    requires Inv(s) && Served(s, id) && (a.StartPop? ==> NoPopBut(s.ops, a.id))
    ensures Served(Act(s, a), id)
  {
    hide Inv, Served, Step, Ready, NoPopBut;
    if a.Advance? {
      if Ready(s, a.id) {
        if a.id == id { OwnStepServed(s, id); } else { OtherStepServed(s, id, a.id); }
      }
    } else {
      NewOpServed(s, a, id);
    }
  }

  /** From the moment k at which the pop begins it stays served. */
  lemma {:induction false} RunServed(acts: seq<Action>, k: nat, id: OpId, tries: nat, wait: bool)
    requires OneAtATime(acts) && k < |acts| && acts[k] == StartPop(id, tries, wait) && tries >= 1
    requires var s := Run(acts[..k]); id !in s.ops && |Ids(s.ops, Granted)| < |Ids(s.ops, Posted)|
    ensures Served(Run(acts), id)
    decreases |acts|
  {
    hide Inv, Act, Served, OneAtATime, Run, Ids, NoPopBut;
    var n := |acts| - 1;
    RunLast(acts);
    if acts[n].StartPop? { AloneAt(acts, n); }
    if k == n {
      PopBegins(Run(acts[..n]), id, tries, wait);
    } else {
      OneAtATimeBefore(acts, n);
      assert acts[..n][..k] == acts[..k];
      RunServed(acts[..n], k, id, tries, wait);
      RunKeepsInv(acts[..n]);
      ActServed(Run(acts[..n]), acts[n], id);
    }
  }

  lemma {:induction false} RunLast(acts: seq<Action>)
    requires acts != []
    ensures Run(acts) == Act(Run(acts[..|acts| - 1]), acts[|acts| - 1])
  {
    hide Act;
  }

  lemma {:induction false} AloneAt(acts: seq<Action>, k: nat)
    requires OneAtATime(acts) && k < |acts| && acts[k].StartPop?
    ensures NoPopBut(Run(acts[..k]).ops, acts[k].id)
  {
    hide Run, NoPopBut;
  }

  lemma {:induction false} OneAtATimeBefore(acts: seq<Action>, n: nat)
    requires OneAtATime(acts) && n <= |acts|
    ensures OneAtATime(acts[..n])
  {
    hide Run, NoPopBut;
    forall k: nat | k < n && acts[..n][k].StartPop? ensures NoPopBut(Run(acts[..n][..k]).ops, acts[..n][k].id) {
      assert acts[..n][..k] == acts[..k];
      assert acts[k].StartPop?;
    }
  }

  lemma PopBegins(s: State, id: OpId, tries: nat, wait: bool)
    requires id !in s.ops && tries >= 1 && NoPopBut(s.ops, id) && |Ids(s.ops, Granted)| < |Ids(s.ops, Posted)|
    ensures Served(Act(s, StartPop(id, tries, wait)), id)
  {
    hide Ids;
    NewIds(s.ops, id, TryRead(tries, wait), Posted);
    NewIds(s.ops, id, TryRead(tries, wait), Granted);
  }

  /**
   When pops are made one at a time, one that begins while more pushes have been posted than permits
   granted is never refused: mpq_pop_nw with at least one try does not return null, whatever pushes
   go on beside it.
   */
  lemma {:induction false} SinglePopNotRefused(acts: seq<Action>, k: nat, id: OpId, tries: nat, wait: bool)
    requires OneAtATime(acts) && k < |acts| && acts[k] == StartPop(id, tries, wait) && tries >= 1
    requires var s := Run(acts[..k]); id !in s.ops && |Ids(s.ops, Granted)| < |Ids(s.ops, Posted)|
    ensures id in Run(acts).ops && !Run(acts).ops[id].Refused?
  {
    hide Run, OneAtATime, Ids, NoPopBut;
    RunServed(acts, k, id, tries, wait);
  }
}
