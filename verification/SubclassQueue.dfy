/**
 The subclass runner of server/jobs/jobs.c on top of the queues it uses: the counters by which
 SubclassRunner tells what is in the job queue of a subclass are replaced by the queue itself,
 access by access, as MpQueueSem has it. A job counts as pushed when its push posts the semaphore,
 and as taken when the pop is granted its permit.
 */
module SubclassQueue {
  import R = SubclassRunner
  import M = MpQueueSem
  import Q = MpQueue

  type OpId = R.OpId

  const TRIES := 4

  /** inside: the operations that are inside mpq_push_w or mpq_pop_nw, and the name of that call in its queue. */
  datatype State = State(runner: R.State, queues: map<int, M.State>, inside: map<OpId, M.OpId>)

  // ---------- steps ----------

  /** What the runner does between the calls of its job queues. */
  predicate Outside(pc: R.Pc) {
    !pc.PushJob? && !pc.Pop?
  }

  datatype Action =
    | Runner(a: R.Action)
    | Call(id: OpId, qid: M.OpId, job: nat)   // the operation calls mpq_push_w or mpq_pop_nw
    | Access(id: OpId)                        // the call makes its next access

  predicate Running(st: State, id: OpId) {
    id in st.runner.ops && st.runner.ops[id].s in st.runner.subs && st.runner.ops[id].s in st.queues
  }

  predicate Enabled(st: State, a: Action) {
    match a
    case Runner(Advance(id, _)) => id in st.runner.ops ==> Outside(st.runner.ops[id]) && id !in st.inside
    case Runner(_) => true
    case Call(id, qid, job) =>
      && Running(st, id) && !Outside(st.runner.ops[id]) && id !in st.inside && job != 0
      && qid !in st.queues[st.runner.ops[id].s].ops
    case Access(id) => Running(st, id) && id in st.inside
  }

  /** The access of the call that makes the runner's own step: the post of a push, the grant of a pop. */
  predicate Counts(before: M.Pc, after: M.Pc) {
    M.KindOf(before) != M.KindOf(after) && (after.Pushed? || after.Popping?)
  }

  ghost predicate CanAccess(st: State, id: OpId) {
    && Enabled(st, Access(id))
    && M.Ready(st.queues[st.runner.ops[id].s], st.inside[id])
    && st.inside[id] in M.Step(st.queues[st.runner.ops[id].s], st.inside[id]).ops
  }

  ghost function AccessCall(st: State, id: OpId): State
    requires CanAccess(st, id)
  {
    var s, qid := st.runner.ops[id].s, st.inside[id];
    var q := st.queues[s];
    var q' := M.Step(q, qid);
    State(if Counts(q.ops[qid], q'.ops[qid]) then R.Step(st.runner, id, false) else st.runner,
          st.queues[s := q'],
          if q'.ops[qid].Pushed? || q'.ops[qid].Popped? then st.inside - {id} else st.inside)
  }

  function StartOf(pc: R.Pc, qid: M.OpId, job: nat): M.Action {
    if pc.PushJob? then M.StartPush(qid, job) else M.StartPop(qid, TRIES, false)
  }

  ghost function Act(st: State, a: Action): State {
    if !Enabled(st, a) then st
    else
      match a
      case Runner(b) => st.(runner := R.Act(st.runner, b))
      case Call(id, qid, job) =>
        var s := st.runner.ops[id].s;
        st.(queues := st.queues[s := M.Act(st.queues[s], StartOf(st.runner.ops[id], qid, job))], inside := st.inside[id := qid])
      case Access(id) => if CanAccess(st, id) then AccessCall(st, id) else st
  }

  ghost function Start(count: nat): State {
    var runner := R.Start(count);
    State(runner, map s | s in runner.subs :: M.Start(), map[])
  }

  ghost function Run(count: nat, acts: seq<Action>): State {
    if acts == [] then Start(count) else Act(Run(count, acts[..|acts| - 1]), acts[|acts| - 1])
  }

  // ---------- invariant ----------

  /** Where the call of an operation stands agrees with where the operation stands. */
  ghost predicate CallOk(q: M.State, pc: R.Pc, qid: M.OpId) {
    && qid in q.ops
    && match pc
       case PushJob(_) => q.ops[qid].Pushing? || q.ops[qid].Post?
       case Pop(_) => M.Served(q, qid) && !q.ops[qid].Popping? && !q.ops[qid].Popped?
       case Process(_) => q.ops[qid].Popping?
       case _ => false
  }

  /** The pops under way are calls of an operation that owns the subclass. */
  ghost predicate PopsOwned(st: State, s: int, q: M.State) {
    forall qid :: qid in q.ops && M.IsPop(q.ops[qid]) && !M.Over(q.ops[qid]) ==>
      exists id :: CallsIn(st, s, id, qid) && R.Owns(st.runner.ops[id])
  }

  predicate CallsIn(st: State, s: int, id: OpId, qid: M.OpId) {
    id in st.inside && st.inside[id] == qid && id in st.runner.ops && st.runner.ops[id].s == s
  }

  ghost predicate NoneRefused(q: M.State) {
    forall qid :: qid in q.ops ==> !q.ops[qid].Refused?
  }

  /** The counters of the runner tell the truth about the queue. */
  ghost predicate Counted(x: R.Sub, q: M.State) {
    |M.Ids(q.ops, M.Posted)| == x.pushed && |M.Ids(q.ops, M.Granted)| == x.taken
  }

  ghost predicate QueueOk(st: State, s: int)
    requires s in st.queues && s in st.runner.subs
  {
    && M.Inv(st.queues[s]) && NoneRefused(st.queues[s]) && PopsOwned(st, s, st.queues[s])
    && Counted(st.runner.subs[s], st.queues[s])
  }

  ghost predicate CallsOk(st: State) {
    && (forall id :: id in st.inside ==>
          Running(st, id) && CallOk(st.queues[st.runner.ops[id].s], st.runner.ops[id], st.inside[id]))
    && Apart(st)
  }

  /** Calls of one queue have names of their own. */
  ghost predicate Apart(st: State) {
    forall i, j | i in st.inside && j in st.inside && i != j && i in st.runner.ops && j in st.runner.ops ::
      st.runner.ops[i].s == st.runner.ops[j].s ==> st.inside[i] != st.inside[j]
  }

  ghost predicate Inv(st: State) {
    && R.Inv(st.runner) && st.queues.Keys == st.runner.subs.Keys
    && (forall s :: s in st.queues ==> QueueOk(st, s))
    && CallsOk(st)
  }

  // ---------- steps keep the invariant ----------

  /** What the runner's step does to the operations and the counters. */
  lemma RunnerStep(r: R.State, id: OpId, f: bool)
    requires id in r.ops && r.ops[id].s in r.subs
    ensures var r', s := R.Step(r, id, f), r.ops[id].s;
      && r'.subs.Keys == r.subs.Keys
      && (forall t :: t in r.subs && t != s ==> r'.subs[t] == r.subs[t])
      && (forall j :: j in r.ops && j != id ==> j in r'.ops && r'.ops[j] == r.ops[j])
      && (Outside(r.ops[id]) ==> r'.subs[s].pushed == r.subs[s].pushed && r'.subs[s].taken == r.subs[s].taken)
      && (r.ops[id].PushJob? ==>
            && id in r'.ops && r'.ops[id] == R.PushId(s)
            && r'.subs[s].pushed == r.subs[s].pushed + 1 && r'.subs[s].taken == r.subs[s].taken)
      && (r.ops[id].Pop? && r.subs[s].taken < r.subs[s].pushed ==>
            && id in r'.ops && r'.ops[id] == R.Process(s)
            && r'.subs[s].pushed == r.subs[s].pushed && r'.subs[s].taken == r.subs[s].taken + 1)
  {
  }

  lemma RunnerAct(r: R.State, b: R.Action)
    requires b.Advance? && b.id in r.ops ==> Outside(r.ops[b.id])
    ensures var r' := R.Act(r, b);
      && r'.subs.Keys == r.subs.Keys
      && (forall t :: t in r.subs ==> r'.subs[t].pushed == r.subs[t].pushed && r'.subs[t].taken == r.subs[t].taken)
      && (forall j :: j in r.ops && !(b.Advance? && j == b.id) ==> j in r'.ops && r'.ops[j] == r.ops[j])
  {
    hide R.Step;
    if b.Advance? && b.id in r.ops && r.ops[b.id].s in r.subs { RunnerStep(r, b.id, b.allowedFirst); }
  }

  /** A queue nobody touched, with its operations and counters where they were. */
  lemma QueueStays(st: State, st': State, t: int)
    requires t in st.queues && t in st.runner.subs && QueueOk(st, t)
    requires t in st'.queues && t in st'.runner.subs && st'.queues[t] == st.queues[t]
    requires st'.runner.subs[t].pushed == st.runner.subs[t].pushed && st'.runner.subs[t].taken == st.runner.subs[t].taken
    requires forall i, qid :: CallsIn(st, t, i, qid) ==> CallsIn(st', t, i, qid) && st'.runner.ops[i] == st.runner.ops[i]
    ensures QueueOk(st', t)
  {
    hide M.Inv, M.Ids;
    var q := st.queues[t];
    forall qid | qid in q.ops && M.IsPop(q.ops[qid]) && !M.Over(q.ops[qid])
      ensures exists i :: CallsIn(st', t, i, qid) && R.Owns(st'.runner.ops[i])
    {
      var i :| CallsIn(st, t, i, qid) && R.Owns(st.runner.ops[i]);
      assert CallsIn(st', t, i, qid) && R.Owns(st'.runner.ops[i]);
    }
  }

  lemma RunnerKeepsInv(st: State, b: R.Action)
    requires Inv(st) && Enabled(st, Runner(b))
    ensures Inv(Act(st, Runner(b)))
  {
    hide R.Inv, M.Inv, QueueOk, CallOk, R.Act;
    var st' := Act(st, Runner(b));
    R.ActKeepsInv(st.runner, b);
    RunnerAct(st.runner, b);
    forall s | s in st'.queues ensures QueueOk(st', s) { QueueStays(st, st', s); }
  }

  /** Whoever owns the subclass of a pop about to be called is the caller, so no other pop is under way. */
  lemma NoOtherPop(st: State, id: OpId, qid: M.OpId)
    requires Inv(st) && Running(st, id) && id !in st.inside && st.runner.ops[id].Pop?
    ensures M.NoPopBut(st.queues[st.runner.ops[id].s].ops, qid)
  {
    hide M.Inv, CallsOk, Counted;
    var s := st.runner.ops[id].s;
    var q := st.queues[s];
    assert QueueOk(st, s);
    forall j | j in q.ops && j != qid && M.IsPop(q.ops[j]) && !M.Over(q.ops[j]) ensures false {
      var i :| CallsIn(st, s, i, j) && R.Owns(st.runner.ops[i]);
      SameOwner(st.runner, i, id);
    }
  }

  lemma SameOwner(r: R.State, a: OpId, b: OpId)
    requires R.Inv(r) && a in r.ops && b in r.ops && r.ops[a].s == r.ops[b].s && R.Owns(r.ops[a]) && R.Owns(r.ops[b])
    ensures a == b
  {
    assert R.OpOk(r.subs[r.ops[a].s], a, r.ops[a]) && R.OpOk(r.subs[r.ops[b].s], b, r.ops[b]);
  }

  /** A call begins: nobody's permits change, and every pop that was served stays served. */
  lemma CallBegins(q: M.State, pc: R.Pc, qid: M.OpId, job: nat)
    requires M.Inv(q) && qid !in q.ops && job != 0
    requires pc.Pop? ==> M.NoPopBut(q.ops, qid) && |M.Ids(q.ops, M.Granted)| < |M.Ids(q.ops, M.Posted)|
    requires pc.Pop? || pc.PushJob?
    ensures var q' := M.Act(q, StartOf(pc, qid, job));
      && M.Inv(q') && qid in q'.ops && q'.ops == q.ops[qid := q'.ops[qid]]
      && q'.ops[qid] == (if pc.PushJob? then M.Pushing else M.TryRead(TRIES, false))
      && M.Ids(q'.ops, M.Posted) == M.Ids(q.ops, M.Posted) && M.Ids(q'.ops, M.Granted) == M.Ids(q.ops, M.Granted)
      && (pc.Pop? ==> M.Served(q', qid))
      && forall j :: j in q.ops && M.Served(q, j) ==> M.Served(q', j)
  {
    var a := StartOf(pc, qid, job);
    var q' := M.Act(q, a);
    hide M.Inv, M.Ids, M.Served, M.NoPopBut;
    M.ActKeepsInv(q, a);
    M.NewIds(q.ops, qid, q'.ops[qid], M.Posted);
    M.NewIds(q.ops, qid, q'.ops[qid], M.Granted);
    if pc.Pop? { M.PopBegins(q, qid, TRIES, false); }
    forall j | j in q.ops && M.Served(q, j) ensures M.Served(q', j) { M.ActServed(q, a, j); }
  }

  lemma RoomToPop(st: State, id: OpId)
    requires Inv(st) && Running(st, id) && st.runner.ops[id].Pop?
    ensures var q := st.queues[st.runner.ops[id].s]; |M.Ids(q.ops, M.Granted)| < |M.Ids(q.ops, M.Posted)|
  {
    hide M.Inv, M.Ids, CallsOk, PopsOwned;
    assert QueueOk(st, st.runner.ops[id].s);
    R.PopFinds(st.runner, id);
  }

  lemma QueueInv(st: State, s: int)
    requires Inv(st) && s in st.queues
    ensures s in st.runner.subs && QueueOk(st, s) && M.Inv(st.queues[s])
  {
  }

  lemma CallKeepsQueue(st: State, id: OpId, qid: M.OpId, job: nat)
    requires Inv(st) && Enabled(st, Call(id, qid, job))
    ensures QueueOk(Act(st, Call(id, qid, job)), st.runner.ops[id].s)
  {
    hide R.Inv, CallsOk, M.Inv, M.Ids, M.Served, M.NoPopBut, M.Act;
    var pc := st.runner.ops[id];
    var s := pc.s;
    QueueInv(st, s);
    if pc.Pop? { NoOtherPop(st, id, qid); RoomToPop(st, id); }
    CallBegins(st.queues[s], pc, qid, job);
    var st' := Act(st, Call(id, qid, job));
    var q, q' := st.queues[s], st'.queues[s];
    forall k | k in q'.ops && M.IsPop(q'.ops[k]) && !M.Over(q'.ops[k])
      ensures exists i :: CallsIn(st', s, i, k) && R.Owns(st'.runner.ops[i])
    {
      if k == qid {
        assert CallsIn(st', s, id, k) && R.Owns(st'.runner.ops[id]);
      } else {
        var i :| CallsIn(st, s, i, k) && R.Owns(st.runner.ops[i]);
        assert CallsIn(st', s, i, k) && R.Owns(st'.runner.ops[i]);
      }
    }
  }

  lemma CallAt(st: State, id: OpId)
    requires Inv(st) && id in st.inside
    ensures Running(st, id) && CallOk(st.queues[st.runner.ops[id].s], st.runner.ops[id], st.inside[id])
  {
  }

  lemma CallKeepsCalls(st: State, id: OpId, qid: M.OpId, job: nat)
    requires Inv(st) && Enabled(st, Call(id, qid, job))
    ensures CallsOk(Act(st, Call(id, qid, job)))
  {
    hide R.Inv, QueueOk, M.Inv, M.Ids, M.Served, M.NoPopBut, M.Act, CallOk, StartOf;
    var pc := st.runner.ops[id];
    var s := pc.s;
    var st' := Act(st, Call(id, qid, job));
    QueueInv(st, s);
    if pc.Pop? { NoOtherPop(st, id, qid); RoomToPop(st, id); }
    CallBegins(st.queues[s], pc, qid, job);
    NewCallOk(st.queues[s], pc, qid, job);
    forall i | i in st'.inside
      ensures Running(st', i) && CallOk(st'.queues[st'.runner.ops[i].s], st'.runner.ops[i], st'.inside[i])
    {
      if i != id {
        CallAt(st, i);
        if st.runner.ops[i].s == s { OldCallOk(st.queues[s], st'.queues[s], st.runner.ops[i], st.inside[i], qid); }
      }
    }
    CallsStayApart(st, id, qid, job);
  }

  lemma NewCallOk(q: M.State, pc: R.Pc, qid: M.OpId, job: nat)
    requires qid !in q.ops && job != 0 && (pc.Pop? || pc.PushJob?)
    requires var q' := M.Act(q, StartOf(pc, qid, job));
      && qid in q'.ops && q'.ops[qid] == (if pc.PushJob? then M.Pushing else M.TryRead(TRIES, false))
      && (pc.Pop? ==> M.Served(q', qid))
    ensures CallOk(M.Act(q, StartOf(pc, qid, job)), pc, qid)
  {
    hide M.Act, M.Served;
  }

  lemma OldCallOk(q: M.State, q': M.State, pc: R.Pc, j: M.OpId, qid: M.OpId)
    requires CallOk(q, pc, j) && qid !in q.ops && qid in q'.ops && q'.ops == q.ops[qid := q'.ops[qid]]
    requires M.Served(q, j) ==> M.Served(q', j)
    ensures CallOk(q', pc, j)
  {
    hide M.Served;
  }

  /** A fresh name is nobody else's. */
  lemma CallsStayApart(st: State, id: OpId, qid: M.OpId, job: nat)
    requires Inv(st) && Enabled(st, Call(id, qid, job))
    ensures Apart(Act(st, Call(id, qid, job)))
  {
    hide R.Inv, QueueOk, M.Inv, M.Served, M.Act, StartOf;
    forall i | i in st.inside ensures st.inside[i] in st.queues[st.runner.ops[i].s].ops { CallAt(st, i); }
  }

  lemma CallKeepsInv(st: State, id: OpId, qid: M.OpId, job: nat)
    requires Inv(st) && Enabled(st, Call(id, qid, job))
    ensures Inv(Act(st, Call(id, qid, job)))
  {
    hide R.Inv, M.Inv, QueueOk, CallsOk, M.Act;
    CallKeepsQueue(st, id, qid, job);
    CallKeepsCalls(st, id, qid, job);
    var st' := Act(st, Call(id, qid, job));
    forall t | t in st'.queues ensures QueueOk(st', t) {
      if t != st.runner.ops[id].s { QueueStays(st, st', t); }
    }
  }

  // ---------- one access of a call ----------

  /** What an access of a call makes of it. */
  ghost predicate AccessOk(q: M.State, q': M.State, pc: R.Pc, qid: M.OpId)
    requires qid in q.ops && qid in q'.ops
  {
    var before, after := q.ops[qid], q'.ops[qid];
    match pc
    case PushJob(_) => if Counts(before, after) then after.Pushed? else after.Pushing? || after.Post?
    case Pop(_) => if Counts(before, after) then after.Popping? else CallOk(q', pc, qid)
    case Process(_) => !Counts(before, after) && (after.Popping? || after.Popped?)
    case _ => false
  }

  lemma PushAccess(q: M.State, pc: R.Pc, qid: M.OpId)
    requires pc.PushJob? && CallOk(q, pc, qid) && M.Ready(q, qid)
    ensures qid in M.Step(q, qid).ops && AccessOk(q, M.Step(q, qid), pc, qid)
  {
    hide Q.Step;
  }

  lemma PopAccess(q: M.State, pc: R.Pc, qid: M.OpId)
    requires M.Inv(q) && pc.Pop? && CallOk(q, pc, qid) && M.Ready(q, qid)
    ensures qid in M.Step(q, qid).ops && AccessOk(q, M.Step(q, qid), pc, qid)
  {
    hide M.Inv, M.Step, M.Ids, M.NoPopBut;
    InvBalanced(q);
    M.PermitFree(q, qid);
    TryAccess(q, qid);
    M.OwnStepServed(q, qid);
  }

  lemma InvBalanced(q: M.State)
    requires M.Inv(q)
    ensures M.Balanced(q)
  {
  }

  /** With a positive semaphore a try takes its permit. */
  lemma TryAccess(q: M.State, qid: M.OpId)
    requires M.Ready(q, qid) && q.value > 0 && (q.ops[qid].TryRead? || q.ops[qid].TryTake?) && q.ops[qid].tries >= 1
    ensures qid in M.Step(q, qid).ops
    ensures M.Step(q, qid).ops[qid] == if q.ops[qid].TryTake? then M.Popping else M.TryTake(q.ops[qid].tries, q.ops[qid].wait)
  {
    hide Q.Step, Q.Begin;
  }

  lemma ProcessAccess(q: M.State, pc: R.Pc, qid: M.OpId)
    requires pc.Process? && CallOk(q, pc, qid) && M.Ready(q, qid)
    ensures qid in M.Step(q, qid).ops && AccessOk(q, M.Step(q, qid), pc, qid)
  {
    hide Q.Step;
  }

  lemma AccessFacts(q: M.State, pc: R.Pc, qid: M.OpId)
    requires M.Inv(q) && NoneRefused(q) && CallOk(q, pc, qid) && M.Ready(q, qid)
    ensures var q' := M.Step(q, qid);
      && M.Inv(q') && qid in q'.ops && q'.ops == q.ops[qid := q'.ops[qid]] && NoneRefused(q')
      && AccessOk(q, q', pc, qid)
  {
    hide M.Inv, M.Step, M.Ready, M.Served;
    M.StepKeepsInv(q, qid);
    M.OtherMoves(q, qid);
    if pc.PushJob? { PushAccess(q, pc, qid); } else if pc.Pop? { PopAccess(q, pc, qid); } else { ProcessAccess(q, pc, qid); }
    assert !M.Step(q, qid).ops[qid].Refused? by { NotRefused(q, M.Step(q, qid), pc, qid); }
  }

  lemma NotRefused(q: M.State, q': M.State, pc: R.Pc, qid: M.OpId)
    requires qid in q.ops && qid in q'.ops && AccessOk(q, q', pc, qid)
    ensures !q'.ops[qid].Refused?
  {
  }

  /** The runner's side of an access: it moves its operation when the access counts, and only then. */
  lemma RunnerSide(st: State, id: OpId)
    requires Inv(st) && CanAccess(st, id)
    ensures var st' := AccessCall(st, id);
      var s, qid := st.runner.ops[id].s, st.inside[id];
      var q := st.queues[s];
      var q' := M.Step(q, qid);
      && R.Inv(st'.runner) && st'.runner.subs.Keys == st.runner.subs.Keys
      && (forall t :: t in st.runner.subs && t != s ==> st'.runner.subs[t] == st.runner.subs[t])
      && (forall j :: j in st.runner.ops && j != id ==> j in st'.runner.ops && st'.runner.ops[j] == st.runner.ops[j])
      && (if !Counts(q.ops[qid], q'.ops[qid]) then st'.runner == st.runner
          else if st.runner.ops[id].PushJob? then
            && st'.runner.subs[s].pushed == st.runner.subs[s].pushed + 1 && st'.runner.subs[s].taken == st.runner.subs[s].taken
          else
            && id in st'.runner.ops && st'.runner.ops[id] == R.Process(s)
            && st'.runner.subs[s].pushed == st.runner.subs[s].pushed && st'.runner.subs[s].taken == st.runner.subs[s].taken + 1)
  {
    hide M.Inv, M.Step, R.Step, R.Inv;
    var s, qid := st.runner.ops[id].s, st.inside[id];
    QueueInv(st, s);
    AccessFacts(st.queues[s], st.runner.ops[id], qid);
    R.StepKeepsInv(st.runner, id, false);
    RunnerStep(st.runner, id, false);
    R.PopFinds(st.runner, id);
  }

  /** Posts and grants move as the runner's counters do. */
  lemma CountsMove(q: M.State, q': M.State, pc: R.Pc, qid: M.OpId)
    requires CallOk(q, pc, qid) && qid in q'.ops && q'.ops == q.ops[qid := q'.ops[qid]] && AccessOk(q, q', pc, qid)
    ensures |M.Ids(q'.ops, M.Posted)|
         == |M.Ids(q.ops, M.Posted)| + (if Counts(q.ops[qid], q'.ops[qid]) && pc.PushJob? then 1 else 0)
    ensures |M.Ids(q'.ops, M.Granted)|
         == |M.Ids(q.ops, M.Granted)| + (if Counts(q.ops[qid], q'.ops[qid]) && pc.Pop? then 1 else 0)
  {
    hide M.Ids, M.KindOf, M.Served, Counts;
    KindsMove(q, q', pc, qid);
    M.IdsUpdate(q.ops, qid, q'.ops[qid], M.Posted);
    M.IdsUpdate(q.ops, qid, q'.ops[qid], M.Granted);
  }

  lemma KindsMove(q: M.State, q': M.State, pc: R.Pc, qid: M.OpId)
    requires CallOk(q, pc, qid) && qid in q'.ops && AccessOk(q, q', pc, qid)
    ensures var before, after := M.KindOf(q.ops[qid]), M.KindOf(q'.ops[qid]);
      if Counts(q.ops[qid], q'.ops[qid]) then
        pc.PushJob? != pc.Pop? && before == M.Other && after == (if pc.PushJob? then M.Posted else M.Granted)
      else after == before
  {
    hide M.Ids, M.NoPopBut;
  }

  /** The queue of the call, after its access. */
  lemma AccessQueue(st: State, id: OpId)
    requires Inv(st) && CanAccess(st, id)
    ensures var s, qid := st.runner.ops[id].s, st.inside[id];
      var q, q' := st.queues[s], AccessCall(st, id).queues[s];
      && CallOk(q, st.runner.ops[id], qid) && AccessCall(st, id).queues == st.queues[s := q']
      && M.Inv(q') && qid in q'.ops && q'.ops == q.ops[qid := q'.ops[qid]] && NoneRefused(q')
      && AccessOk(q, q', st.runner.ops[id], qid)
      && q' == M.Step(q, qid)
  {
    hide M.Inv, M.Step, R.Step, R.Inv;
    QueueInv(st, st.runner.ops[id].s);
    CallAt(st, id);
    AccessFacts(st.queues[st.runner.ops[id].s], st.runner.ops[id], st.inside[id]);
  }

  lemma AccessKeepsQueue(st: State, id: OpId)
    requires Inv(st) && CanAccess(st, id)
    ensures st.runner.ops[id].s in AccessCall(st, id).runner.subs
    ensures QueueOk(AccessCall(st, id), st.runner.ops[id].s)
  {
    hide M.Inv, M.Step, M.Ids, M.Ready, R.Step, R.Inv, CallsOk;
    var st' := AccessCall(st, id);
    var pc, qid := st.runner.ops[id], st.inside[id];
    var s := pc.s;
    AccessQueue(st, id);
    RunnerSide(st, id);
    QueueInv(st, s);
    CountsMove(st.queues[s], st'.queues[s], pc, qid);
    PopsStayOwned(st, id);
  }

  lemma PopsStayOwned(st: State, id: OpId)
    requires Inv(st) && CanAccess(st, id)
    ensures PopsOwned(AccessCall(st, id), st.runner.ops[id].s, AccessCall(st, id).queues[st.runner.ops[id].s])
  {
    hide M.Inv, M.Step, M.Ids, M.Ready, M.Served, R.Step, R.Inv, CallsOk, Counted;
    var st' := AccessCall(st, id);
    var pc, qid := st.runner.ops[id], st.inside[id];
    var s := pc.s;
    AccessQueue(st, id);
    RunnerSide(st, id);
    QueueInv(st, s);
    var q' := st'.queues[s];
    forall k | k in q'.ops && M.IsPop(q'.ops[k]) && !M.Over(q'.ops[k])
      ensures exists i :: CallsIn(st', s, i, k) && R.Owns(st'.runner.ops[i])
    {
      if k == qid {
        assert CallsIn(st', s, id, k) && R.Owns(st'.runner.ops[id]);
      } else {
        var i :| CallsIn(st, s, i, k) && R.Owns(st.runner.ops[i]);
        assert CallsIn(st', s, i, k) && R.Owns(st'.runner.ops[i]);
      }
    }
  }

  /** Another call of the same queue is where it was. */
  lemma OtherCall(q: M.State, pc: R.Pc, j: M.OpId, qid: M.OpId)
    requires M.Inv(q) && M.Ready(q, qid) && qid != j && CallOk(q, pc, j)
    requires qid in M.Step(q, qid).ops && M.Step(q, qid).ops == q.ops[qid := M.Step(q, qid).ops[qid]]
    ensures CallOk(M.Step(q, qid), pc, j)
  {
    hide M.Inv, M.Step, M.Ready, M.Served;
    if pc.Pop? { M.OtherStepServed(q, j, qid); }
  }

  lemma AccessKeepsCalls(st: State, id: OpId)
    requires Inv(st) && CanAccess(st, id)
    ensures CallsOk(AccessCall(st, id))
  {
    hide M.Inv, M.Step, M.Ids, M.Ready, M.Served, R.Step, R.Inv, QueueOk;
    var st' := AccessCall(st, id);
    var s, qid := st.runner.ops[id].s, st.inside[id];
    AccessQueue(st, id);
    RunnerSide(st, id);
    QueueInv(st, s);
    forall i | i in st'.inside
      ensures Running(st', i) && CallOk(st'.queues[st'.runner.ops[i].s], st'.runner.ops[i], st'.inside[i])
    {
      CallAt(st, i);
      if i != id && st.runner.ops[i].s == s { OtherCall(st.queues[s], st.runner.ops[i], st.inside[i], qid); }
    }
  }

  lemma AccessKeepsInv(st: State, id: OpId)
    requires Inv(st) && CanAccess(st, id)
    ensures Inv(AccessCall(st, id))
  {
    hide M.Inv, M.Step, M.Ids, M.Ready, M.Served, R.Step, R.Inv, QueueOk, CallsOk, Counts;
    var st' := AccessCall(st, id);
    AccessQueue(st, id);
    RunnerSide(st, id);
    AccessKeepsQueue(st, id);
    AccessKeepsCalls(st, id);
    forall t | t in st'.queues ensures QueueOk(st', t) {
      if t != st.runner.ops[id].s { QueueStays(st, st', t); }
    }
  }

  lemma ActKeepsInv(st: State, a: Action)
    requires Inv(st)
    ensures Inv(Act(st, a))
  {
    hide Inv, AccessCall, CanAccess;
    match a
    case Runner(b) => if Enabled(st, a) { RunnerKeepsInv(st, b); }
    case Call(id, qid, job) => if Enabled(st, a) { CallKeepsInv(st, id, qid, job); }
    case Access(id) => if CanAccess(st, id) { AccessKeepsInv(st, id); }
  }

  // ---------- runs ----------

  lemma StartInv(count: nat)
    ensures Inv(Start(count))
  {
    hide M.Inv, R.Inv;
    R.StartInv(count);
    M.StartInv();
    var st := Start(count);
    forall s | s in st.queues ensures QueueOk(st, s) {
      assert M.Ids(st.queues[s].ops, M.Posted) == {} && M.Ids(st.queues[s].ops, M.Granted) == {};
    }
  }

  lemma {:induction false} RunKeepsInv(count: nat, acts: seq<Action>)
    ensures Inv(Run(count, acts))
  {
    hide Inv, Act, Start;
    if acts == [] {
      StartInv(count);
    } else {
      RunKeepsInv(count, acts[..|acts| - 1]);
      ActKeepsInv(Run(count, acts[..|acts| - 1]), acts[|acts| - 1]);
    }
  }

  /** The runner's part of a run is a run of SubclassRunner, so what is proved there holds here. */
  lemma {:induction false} RunnerRuns(count: nat, acts: seq<Action>)
    ensures exists steps: seq<R.Action> :: R.Run(count, steps) == Run(count, acts).runner
  {
    hide R.Act, R.Start, Inv, Act;
    if acts == [] {
      assert R.Run(count, []) == Run(count, acts).runner;
    } else {
      var before, a := Run(count, acts[..|acts| - 1]), acts[|acts| - 1];
      RunnerRuns(count, acts[..|acts| - 1]);
      var steps :| R.Run(count, steps) == before.runner;
      RunnerActs(before, a);
      if b :| Act(before, a).runner == R.Act(before.runner, b) {
        assert (steps + [b])[..|steps|] == steps;
        assert R.Run(count, steps + [b]) == Run(count, acts).runner;
      }
    }
  }

  lemma RunnerActs(st: State, a: Action)
    ensures Act(st, a).runner == st.runner || exists b :: Act(st, a).runner == R.Act(st.runner, b)
  {
    if a.Access? && CanAccess(st, a.id) {
      var b := R.Advance(a.id, false);
      assert R.Act(st.runner, b) == R.Step(st.runner, a.id, false);
    }
  }

  /**
   assert (job) of process_one_sublist never fires: in every run no mpq_pop_nw of a job queue is
   refused, and one that has returned has returned a job that was pushed.
   */
  lemma {:induction false} JobIsThere(count: nat, acts: seq<Action>, s: int, qid: M.OpId)
    requires s in Run(count, acts).queues && qid in Run(count, acts).queues[s].ops
    ensures var q := Run(count, acts).queues[s];
      && !q.ops[qid].Refused?
      && (q.ops[qid].Popped? ==>
            && qid in q.q.ops && q.q.ops[qid].PopDone? && q.q.ops[qid].val != 0
            && Q.IsPushed(q.q, q.q.ops[qid].pos)
            && q.q.blocks[q.q.ops[qid].pos.blk].pushed[q.q.ops[qid].pos.t].val == q.q.ops[qid].val)
  {
    hide M.Inv, Run;
    RunKeepsInv(count, acts);
    var q := Run(count, acts).queues[s];
    assert QueueOk(Run(count, acts), s);
    if q.ops[qid].Popped? { M.PopYields(q, qid); }
  }
}
