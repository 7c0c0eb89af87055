/**
 What it means that mpq_pop of server/common/mp-queue.c returns null: at some moment of the call
 there was nothing in the queue that another pop had not taken or laid claim to.
 */
module MpQueueEmpty {
  import B = MpQueueBlock
  import Q = MpQueue
  import S = MpQueueSem

  type OpId = Q.OpId

  /** Pop id is inside mpq_pop, and every value ever stored has been taken or is claimed by another pop. */
  ghost predicate NothingFor(q: Q.Queue, id: OpId) {
    && id in q.ops && q.ops[id].PopFirst?
    && forall p :: Q.IsPushed(q, p) ==> (Q.IsPopped(q, p) || Q.IsClaimed(q, p)) && S.Taker(q, p) != id
  }

  /** The access with which a pop finds the last block empty. */
  ghost predicate FindsNothing(q: Q.Queue, id: OpId) {
    && id in q.ops && q.ops[id].PopFirst? && q.ops[id].qb + 1 == |q.blocks|
    && id in q.blocks[q.ops[id].qb].ops && |q.blocks[q.ops[id].qb].cells| > 0
    && B.RunsDry(q.blocks[q.ops[id].qb], id)
  }

  lemma FoundNothing(q: Q.Queue, id: OpId)
    requires Q.Good(q) && FindsNothing(q, id)
    ensures NothingFor(q, id)
  {
    DryFacts(q, id);
    hide Q.Good, B.RunsDry, S.Taker, S.Holds;
    forall p | Q.IsPushed(q, p)
      ensures (Q.IsPopped(q, p) || Q.IsClaimed(q, p)) && S.Taker(q, p) != id
    {
      S.EveryPushIsTaken(q, id, p);
    }
  }

  lemma DryFacts(q: Q.Queue, id: OpId)
    requires Q.Good(q) && FindsNothing(q, id)
    ensures var b := q.blocks[q.ops[id].qb]; b.ops[id].PopReadTail? && b.lim <= b.head
  {
    hide B.Inv, B.RunsDry, Q.Inv, Q.Linked, Q.Accounted;
    Q.IsInside(q, id);
    B.RunsDryFacts(q.blocks[q.ops[id].qb], id);
  }

  /** Only its own access that finds nothing puts a pop on the way to null. */
  lemma StepHasMore(q: Q.Queue, j: OpId, id: OpId)
    requires Q.Good(q) && id in q.ops && j in q.ops && S.HasMore(q, id)
    requires j == id ==> !FindsNothing(q, id)
    ensures id in Q.Step(q, j).ops && S.HasMore(Q.Step(q, j), id)
  {
    hide Q.Inv, Q.Linked, Q.Accounted, Q.Step, S.HasMore, Q.Grows, B.RunsDry;
    Q.GoodReady(q, j);
    if j == id {
      if q.ops[id].PopFirst? { S.FirstIsLinked(q, id); }
      S.OwnStepHasMore(q, id);
    } else {
      Q.StepGrows(q, j);
      S.OthersHaveMore(q, Q.Step(q, j), j, id);
    }
  }

  lemma BeginHasMore(q: Q.Queue, j: OpId, pc: Q.Pc, id: OpId)
    requires Q.Linked(q) && j !in q.ops && (pc.PopReadHead? || pc.PushReadTail?)
    requires (id in q.ops && S.HasMore(q, id)) || id == j
    ensures S.HasMore(Q.Begin(q, j, pc), id)
  {
  }

  lemma ActHasMore(q: Q.Queue, a: Q.Action, id: OpId)
    requires Q.Good(q) && id in Q.Act(q, a).ops
    requires id in q.ops ==> S.HasMore(q, id)
    requires a == Q.Advance(id) ==> !FindsNothing(q, id)
    ensures S.HasMore(Q.Act(q, a), id)
  {
    hide Q.Inv, Q.Accounted, Q.Step, S.HasMore, FindsNothing;
    match a
    case StartPop(j) => if j !in q.ops { BeginHasMore(q, j, Q.PopReadHead, id); }
    case StartPush(j, v) => if j !in q.ops && v != 0 { BeginHasMore(q, j, Q.PushReadTail(v), id); }
    case Advance(j) =>
      if Q.Ready(q, j) {
        if id in Q.Step(q, j).ops { StepKeepsKeys(q, j, id); }
        StepHasMore(q, j, id);
      }
  }

  /** A step makes no operation appear. */
  lemma StepKeepsKeys(q: Q.Queue, j: OpId, id: OpId)
    requires Q.Good(q) && Q.Ready(q, j) && id in Q.Step(q, j).ops
    ensures id in q.ops
  {
    hide Q.Good, Q.StepInside, B.Fresh;
    if Q.Inside(q.ops[j]) { InsideKeepsKeys(q, j, q.ops[j], id); }
  }

  lemma InsideKeepsKeys(q: Q.Queue, j: OpId, pc: Q.Pc, id: OpId)
    requires Q.Inside(pc) && pc.qb < |q.blocks| && j in q.blocks[pc.qb].ops && |q.blocks[pc.qb].cells| > 0
    requires j in q.ops && id in Q.StepInside(q, j, pc).ops
    ensures id in q.ops
  {
    hide B.Step;
  }

  /** A pop on the way to null found nothing at some moment before. */
  lemma {:induction false} LessMeansEmpty(acts: seq<Q.Action>, id: OpId) returns (k: nat)
    requires id in Q.Run(acts).ops && !S.HasMore(Q.Run(acts), id)
    ensures k < |acts| && NothingFor(Q.Run(acts[..k]), id)
    decreases |acts|
  {
    hide Q.Good, Q.Act, S.HasMore, FindsNothing, NothingFor, Q.Run;
    if acts == [] { EmptyHasNone(); }
    var n := |acts| - 1;
    var q := Q.Run(acts[..n]);
    RunLast(acts);
    Q.RunKeepsGood(acts[..n]);
    if id in q.ops && !S.HasMore(q, id) {
      k := LessMeansEmpty(acts[..n], id);
      assert acts[..n][..k] == acts[..k];
    } else {
      if acts[n] != Q.Advance(id) || !FindsNothing(q, id) { ActHasMore(q, acts[n], id); }
      FoundNothing(q, id);
      k := n;
    }
  }

  lemma EmptyHasNone()
    ensures Q.Run([]).ops == map[]
  {
  }

  lemma {:induction false} RunLast(acts: seq<Q.Action>)
    requires acts != []
    ensures Q.Run(acts) == Q.Act(Q.Run(acts[..|acts| - 1]), acts[|acts| - 1])
  {
  }

  /**
   A mpq_pop that has returned null had a moment, inside the call, at which every value ever stored
   had been taken, or claimed by another pop under way.
   */
  lemma {:induction false} NullMeansEmpty(acts: seq<Q.Action>, id: OpId)
    requires id in Q.Run(acts).ops && Q.Run(acts).ops[id].PopNone?
    ensures exists k: nat :: k < |acts| && NothingFor(Q.Run(acts[..k]), id)
  {
    hide Q.Run, NothingFor;
    var k := LessMeansEmpty(acts, id);
  }
}
