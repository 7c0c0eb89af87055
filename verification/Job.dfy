/**
 One asynchronous job and everything that refers to it (server/jobs/jobs.c): its flag word
 (lock bit, queue bits, pending signals), its reference counter, and the references
 themselves. Threads run try_lock_job, unlock_job, job_send_signals, job_decref and
 process_one_job on it, one memory access at a time, interleaved at will.

 Each operation owns exactly one reference. j_execute is an arbitrary callback that may
 create references, change the allowed signals and return signals to deliver, but never
 JOB_FINISH; the callback of JS_FINISH frees the job.
 */
module Job {

  type RefId = nat
  type Signal = s: nat | s < 8
  type Class = c: nat | c < 16

  const JS_FINISH: Signal := 7
  const JC_MAIN: Class := 3

  /** j_flags: JF_LOCKED, bits 0..15, bits 24..31, and the remaining status bits. */
  datatype Flags = Flags(locked: bool, queued: set<Class>, sigs: set<Signal>, misc: nat)

  /** Why a lock is tried: what to set or clear with it, and what to do when it fails. */
  datatype Attempt =
    | SendFirst(sigs: set<Signal>)
    | SendAgain
    | RunFirst(queuedFlag: set<Class>)
    | RunAgain

  datatype Pc =
    | SendCheck(sigs: set<Signal>)               // job_send_signals
    | SendOr(sigs: set<Signal>)
    | RunRead                                    // process_one_job
    | RunClear(queuedFlag: set<Class>)
    | LockRead(why: Attempt)                     // try_lock_job
    | LockCas(why: Attempt, seen: Flags)
    | UnlockRead                                 // unlock_job: read the flags, decide
    | UnlockCas(seen: Flags)
    | UnlockDec
    | UnlockDecFaa
    | UnlockReset
    | UnlockLast
    | QueueCas(seen: Flags, c: Class)
    | Push(c: Class)
    | TakeSignal(s: Signal)
    | Execute(s: Signal)                         // inside j_execute, or the creator before schedule_job
    | DecRead                                    // job_decref
    | DecFaa
    | DecReset
    | DecLast

  /** One reference: kept somewhere, in an execution queue, or owned by a running operation. */
  datatype Ref =
    | Held
    | InQueue(c: Class)
    | Op(pc: Pc, mask: set<Class>, busy: bool)   // job_class_mask of the thread; current_job != 0

  datatype Job = Job(
    flags: Flags, refcnt: int,
    allowed: set<Signal>, fast: set<Signal>, sigclass: seq<Class>,    // j_status, j_sigclass
    refs: map<RefId, Ref>,
    locker: RefId,                               // history: who holds JF_LOCKED
    destroyed: bool)

  // ---------- steps ----------

  function To(j: Job, id: RefId, pc: Pc): Job
    requires id in j.refs && j.refs[id].Op?
  {
    j.(refs := j.refs[id := j.refs[id].(pc := pc)])
  }

  function Drop(j: Job, id: RefId): Job {
    j.(refs := j.refs - {id})
  }

  /** The highest pending signal, 7 - clz. */
  function Highest(sigs: set<Signal>): (s: Signal)
    requires sigs != {}
    ensures s in sigs && forall t :: t in sigs ==> t <= s
  {
    if 7 in sigs then 7 else if 6 in sigs then 6 else if 5 in sigs then 5 else if 4 in sigs then 4
    else if 3 in sigs then 3 else if 2 in sigs then 2 else if 1 in sigs then 1 else (assert exists t :: t in sigs; 0)
  }

  function LockSets(why: Attempt): set<Signal> {
    if why.SendFirst? then why.sigs else {}
  }

  function LockClears(why: Attempt): set<Class> {
    if why.RunFirst? then why.queuedFlag else {}
  }

  function AfterFailedLock(why: Attempt): Pc {
    match why
    case SendFirst(sigs) => SendOr(sigs)
    case RunFirst(queuedFlag) => RunClear(queuedFlag)
    case SendAgain | RunAgain => DecRead
  }

  function StepLockCas(j: Job, id: RefId, why: Attempt, seen: Flags): Job
    requires id in j.refs && j.refs[id].Op?
  {
    if j.flags != seen then To(j, id, LockRead(why))
    else To(j, id, UnlockRead).(locker := id,
      flags := j.flags.(locked := true, sigs := seen.sigs + LockSets(why), queued := seen.queued - LockClears(why)))
  }

  /** The decision of unlock_job on the flags just read. */
  function StepUnlockRead(j: Job, id: RefId): Job
    requires id in j.refs && j.refs[id].Op? && |j.sigclass| == 8
  {
    var todo := j.flags.sigs * j.allowed;
    if todo == {} then To(j, id, UnlockCas(j.flags))
    else
      var s := Highest(todo);
      var c := j.sigclass[s];
      if c in j.refs[id].mask && (s in j.fast || !j.refs[id].busy) then To(j, id, TakeSignal(s))
      else To(j, id, QueueCas(j.flags, if c == 0 then JC_MAIN else c))
  }

  function StepQueueCas(j: Job, id: RefId, seen: Flags, c: Class): Job
    requires id in j.refs && j.refs[id].Op?
  {
    if j.flags != seen then To(j, id, UnlockRead)
    else To(j, id, if c in seen.queued then DecRead else Push(c))
      .(flags := seen.(queued := seen.queued + {c}, locked := false))
  }

  /** The fetch-and-subtract of the counter: whoever takes it from 1 to 0 keeps the last reference. */
  function StepFaa(j: Job, id: RefId, last: Pc): Job
    requires id in j.refs && j.refs[id].Op?
  {
    (if j.refcnt != 1 then Drop(j, id) else To(j, id, last)).(refcnt := j.refcnt - 1)
  }

  /** The next step of operation id; inside j_execute it takes none by itself. */
  function Step(j: Job, id: RefId): Job
    requires id in j.refs && j.refs[id].Op? && |j.sigclass| == 8
  {
    var me := j.refs[id];
    match me.pc
    case SendCheck(sigs) => To(j, id, if sigs <= j.flags.sigs then DecRead else LockRead(SendFirst(sigs)))
    case SendOr(sigs) => To(j, id, LockRead(SendAgain)).(flags := j.flags.(sigs := j.flags.sigs + sigs))
    case RunRead => To(j, id, LockRead(RunFirst(j.flags.queued * me.mask)))
    case RunClear(queuedFlag) =>
      To(j, id, LockRead(RunAgain)).(flags := j.flags.(queued := j.flags.queued - queuedFlag))
    case LockRead(why) => To(j, id, if j.flags.locked then AfterFailedLock(why) else LockCas(why, j.flags))
    case LockCas(why, seen) => StepLockCas(j, id, why, seen)
    case UnlockRead => StepUnlockRead(j, id)
    case UnlockCas(seen) =>
      if j.flags != seen then To(j, id, UnlockRead)
      else To(j, id, UnlockDec).(flags := seen.(locked := false))
    case UnlockDec => To(j, id, if j.refcnt >= 2 then UnlockDecFaa else UnlockLast)
    case UnlockDecFaa => StepFaa(j, id, UnlockReset)
    case UnlockReset => To(j, id, UnlockLast).(refcnt := 1)
    case UnlockLast =>
      if JS_FINISH !in j.allowed then j  // the assert fails: FinishHandledExactly
      else To(j, id, UnlockRead).(locker := id, flags := j.flags.(locked := true, sigs := j.flags.sigs + {JS_FINISH}))
    case QueueCas(seen, c) => StepQueueCas(j, id, seen, c)
    case Push(c) => j.(refs := j.refs[id := InQueue(c)])
    case TakeSignal(s) => To(j, id, Execute(s)).(flags := j.flags.(sigs := j.flags.sigs - {s}))
    case Execute(s) => j
    case DecRead => To(j, id, if j.refcnt >= 2 then DecFaa else DecLast)
    case DecFaa => StepFaa(j, id, DecReset)
    case DecReset => To(j, id, DecLast).(refcnt := 1)
    case DecLast => To(j, id, SendCheck({JS_FINISH}))
  }

  datatype Action =
    | Advance(id: RefId)
    | Incref(id: RefId, other: RefId)                                   // by whoever keeps id, or runs the job
    | StartSend(id: RefId, sigs: set<Signal>, mask: set<Class>, busy: bool)
    | StartDecref(id: RefId, mask: set<Class>, busy: bool)
    | PopQueue(id: RefId, mask: set<Class>, busy: bool)                  // a thread takes the job off its queue
    | Change(id: RefId, allowed: set<Signal>, fast: set<Signal>, sigclass: seq<Class>, misc: nat)
    | Return(id: RefId, sigs: set<Signal>)                               // j_execute returns
    | Destroy(id: RefId)                                                 // the JS_FINISH callback frees the job

  predicate Runs(j: Job, id: RefId) {
    id in j.refs && j.refs[id].Op? && j.refs[id].pc.Execute?
  }

  predicate Enabled(j: Job, a: Action) {
    && |j.sigclass| == 8 && a.id in j.refs
    && match a
       case Advance(id) => j.refs[id].Op?
       case Incref(id, other) => (j.refs[id].Held? || (Runs(j, id) && j.refs[id].pc.s != JS_FINISH)) && other !in j.refs
       case StartSend(id, sigs, _, _) => j.refs[id].Held? && JS_FINISH !in sigs
       case StartDecref(id, _, _) => j.refs[id].Held?
       case PopQueue(id, mask, _) => j.refs[id].InQueue? && j.refs[id].c in mask
       case Change(id, allowed, _, sigclass, _) => Runs(j, id) && |sigclass| == 8
       case Return(id, sigs) => Runs(j, id) && j.refs[id].pc.s != JS_FINISH && JS_FINISH !in sigs
       case Destroy(id) => Runs(j, id) && j.refs[id].pc.s == JS_FINISH
  }

  function Act(j: Job, a: Action): Job
    requires Enabled(j, a)
  {
    match a
    case Advance(id) => Step(j, id)
    case Incref(_, other) => j.(refcnt := j.refcnt + 1, refs := j.refs[other := Held])
    case StartSend(id, sigs, mask, busy) => j.(refs := j.refs[id := Op(SendCheck(sigs), mask, busy)])
    case StartDecref(id, mask, busy) => j.(refs := j.refs[id := Op(DecRead, mask, busy)])
    case PopQueue(id, mask, busy) => j.(refs := j.refs[id := Op(RunRead, mask, busy)])
    case Change(id, allowed, fast, sigclass, misc) =>
      j.(allowed := allowed, fast := fast, sigclass := sigclass, flags := j.flags.(misc := misc))
    case Return(id, sigs) => To(j, id, UnlockRead).(flags := j.flags.(sigs := j.flags.sigs + sigs))
    case Destroy(id) => Drop(j, id).(destroyed := true, refcnt := 0, flags := Flags(false, {}, {}, 0))   // the memory is gone
  }

  /** A job as create_async_job leaves it: locked by its creator, who owns the only reference. */
  function Created(allowed: set<Signal>, fast: set<Signal>, sigclass: seq<Class>, mask: set<Class>, busy: bool): Job {
    Job(Flags(true, {}, {}, 0), 1, allowed, fast, sigclass, map[0 := Op(Execute(0), mask, busy)], 0, false)
  }

  // ---------- invariant ----------

  /** The operation holds JF_LOCKED. */
  predicate HoldsLock(r: Ref) {
    r.Op? && (r.pc.UnlockRead? || r.pc.UnlockCas? || r.pc.QueueCas? || r.pc.TakeSignal? || r.pc.Execute?)
  }

  /** This reference will clear queue bit c, or has the job in queue c. */
  predicate Carries(r: Ref, c: Class) {
    || (r.InQueue? && r.c == c)
    || (r.Op? && r.pc.Push? && r.pc.c == c)
    || (r.Op? && r.pc.RunRead? && c in r.mask)
    || (r.Op? && r.pc.RunClear? && c in r.pc.queuedFlag)
    || (r.Op? && (r.pc.LockRead? || r.pc.LockCas?) && c in LockClears(r.pc.why))
  }

  /** This reference is in an execution queue, about to be, just popped, or about to retry the lock. */
  predicate Attends(r: Ref) {
    || r.InQueue?
    || (r.Op? && (r.pc.Push? || r.pc.RunRead? || r.pc.RunClear?))
    || (r.Op? && (r.pc.LockRead? || r.pc.LockCas?) && !r.pc.why.SendFirst?)
  }

  /** The moment between taking the counter to 0 and setting it back to 1. */
  predicate AtZero(r: Ref) {
    r.Op? && (r.pc.UnlockReset? || r.pc.DecReset?)
  }

  /** On the way to delivering JS_FINISH: this must be the last reference. */
  predicate Finishing(r: Ref) {
    r.Op? && (r.pc.UnlockReset? || r.pc.DecReset? || r.pc.UnlockLast? || r.pc.DecLast?
      || (r.pc.SendCheck? && JS_FINISH in r.pc.sigs) || (r.pc.SendOr? && JS_FINISH in r.pc.sigs)
      || ((r.pc.LockRead? || r.pc.LockCas?) && JS_FINISH in LockSets(r.pc.why))
      || (r.pc.Execute? && r.pc.s == JS_FINISH))
  }

  /** Where the last reference can be while JS_FINISH is pending; if it is not allowed, on the way to the assert. */
  predicate Delivering(j: Job, r: Ref) {
    || (JS_FINISH !in j.allowed && r.Op? && (r.pc.UnlockCas? || r.pc.UnlockDec? || r.pc.UnlockLast?))
    || r.InQueue?
    || (r.Op? && (r.pc.UnlockRead? || r.pc.QueueCas? || r.pc.Push? || r.pc.RunRead? || r.pc.RunClear?
          || ((r.pc.LockRead? || r.pc.LockCas?) && !r.pc.why.SendFirst?)
          || (r.pc.TakeSignal? && r.pc.s == JS_FINISH)))
  }

  predicate LocalOk(j: Job, r: Ref) {
    r.Op? ==>
      && (r.pc.LockCas? ==> !r.pc.seen.locked)
      && (r.pc.UnlockCas? ==> r.pc.seen.locked && r.pc.seen.sigs * j.allowed == {})
      && (r.pc.QueueCas? ==> r.pc.seen.locked)
      && (r.pc.UnlockLast? || r.pc.DecLast? ==> j.refcnt == 1)
      && (r.pc.TakeSignal? && r.pc.s != JS_FINISH ==> JS_FINISH !in j.flags.sigs)
      && (r.pc.TakeSignal? && r.pc.s == JS_FINISH ==> JS_FINISH in j.flags.sigs)
  }

  /** JS_FINISH is sent by itself. */
  predicate SendOk(r: Ref) {
    r.Op? ==>
      && ((r.pc.SendCheck? || r.pc.SendOr?) && JS_FINISH in r.pc.sigs ==> r.pc.sigs == {JS_FINISH})
      && ((r.pc.LockRead? || r.pc.LockCas?) && JS_FINISH in LockSets(r.pc.why) ==> LockSets(r.pc.why) == {JS_FINISH})
  }

  ghost predicate LockOk(j: Job) {
    && (j.flags.locked ==> j.locker in j.refs && HoldsLock(j.refs[j.locker]))
    && (forall id :: id in j.refs && HoldsLock(j.refs[id]) ==> j.flags.locked && id == j.locker)
  }

  ghost predicate QueueOk(j: Job) {
    && (forall c :: c in j.flags.queued ==> exists id :: id in j.refs && Carries(j.refs[id], c))
    && (!j.flags.locked && j.flags.sigs * j.allowed != {} ==> exists id :: id in j.refs && Attends(j.refs[id]))
  }

  ghost predicate CountOk(j: Job) {
    && (forall id :: id in j.refs && AtZero(j.refs[id]) ==> j.refcnt == 0)
    && ((exists id :: id in j.refs && AtZero(j.refs[id])) || j.refcnt == |j.refs|)
    && (forall id :: id in j.refs && Finishing(j.refs[id]) ==> j.refs.Keys == {id})
    && (JS_FINISH in j.flags.sigs ==> forall id :: id in j.refs ==> j.refs.Keys == {id} && Delivering(j, j.refs[id]))
    && (j.destroyed ==> j.refs == map[])
  }

  /** While JS_FINISH is pending and not allowed, nothing else can run. */
  predicate NothingElse(j: Job) {
    JS_FINISH in j.flags.sigs && JS_FINISH !in j.allowed ==> j.flags.sigs * j.allowed == {}
  }

  ghost predicate Inv(j: Job) {
    && |j.sigclass| == 8
    && NothingElse(j)
    && LockOk(j) && QueueOk(j) && CountOk(j)
    && (forall id :: id in j.refs ==> LocalOk(j, j.refs[id]) && SendOk(j.refs[id]))
  }

  lemma CreatedInv(allowed: set<Signal>, fast: set<Signal>, sigclass: seq<Class>, mask: set<Class>, busy: bool)
    requires |sigclass| == 8
    ensures Inv(Created(allowed, fast, sigclass, mask, busy))
  {
  }

  // ---------- steps keep the invariant ----------

  /** Only reference id changes; each queue bit and each pending signal is still looked after. */
  lemma QueueStays(j: Job, j': Job, id: RefId)
    requires QueueOk(j) && id in j.refs
    requires forall i :: i in j.refs && i != id ==> i in j'.refs && j'.refs[i] == j.refs[i]
    requires forall c :: c in j'.flags.queued ==>
      || (id in j'.refs && Carries(j'.refs[id], c))
      || (c in j.flags.queued && !Carries(j.refs[id], c))
    requires !j'.flags.locked && j'.flags.sigs * j'.allowed != {} ==>
      || (id in j'.refs && Attends(j'.refs[id]))
      || (!j.flags.locked && j.flags.sigs * j.allowed != {} && !Attends(j.refs[id]))
      || (exists c :: c in j.flags.queued && !Carries(j.refs[id], c))
    ensures QueueOk(j')
  {
    forall c | c in j'.flags.queued
      ensures exists i :: i in j'.refs && Carries(j'.refs[i], c)
    {
      if !(id in j'.refs && Carries(j'.refs[id], c)) {
        var i :| i in j.refs && Carries(j.refs[i], c);
        assert i in j'.refs && Carries(j'.refs[i], c);
      }
    }
    if !j'.flags.locked && j'.flags.sigs * j'.allowed != {} && !(id in j'.refs && Attends(j'.refs[id])) {
      if c :| c in j.flags.queued && !Carries(j.refs[id], c) {
        var i :| i in j.refs && Carries(j.refs[i], c);
        assert i in j'.refs && Attends(j'.refs[i]);
      } else {
        var i :| i in j.refs && Attends(j.refs[i]);
        assert i in j'.refs && Attends(j'.refs[i]);
      }
    }
  }

  /** job_send_signals, process_one_job and the first half of try_lock_job. */
  predicate Asking(pc: Pc) {
    pc.SendCheck? || pc.SendOr? || pc.RunRead? || pc.RunClear? || pc.LockRead?
  }

  /** The steps of unlock_job with the lock in hand. */
  predicate Deciding(pc: Pc) {
    pc.UnlockRead? || pc.UnlockCas? || pc.QueueCas?
  }

  predicate Serving(pc: Pc) {
    pc.Push? || pc.TakeSignal? || pc.Execute? || pc.UnlockLast?
  }

  /** Giving a reference up. */
  predicate Dropping(pc: Pc) {
    pc.UnlockDec? || pc.UnlockDecFaa? || pc.UnlockReset? || pc.DecRead? || pc.DecFaa? || pc.DecReset? || pc.DecLast?
  }

  lemma OnlyOne(j: Job, id: RefId)
    requires id in j.refs && |j.refs| == 1
    ensures j.refs.Keys == {id}
  {
    assert |j.refs.Keys - {id}| == 0;
  }

  lemma AskingKeepsLock(j: Job, id: RefId)
    requires Inv(j) && id in j.refs && j.refs[id].Op? && Asking(j.refs[id].pc)
    ensures LockOk(Step(j, id))
  {
    hide QueueOk;
  }

  lemma AskingKeepsQueue(j: Job, id: RefId)
    requires Inv(j) && id in j.refs && j.refs[id].Op? && Asking(j.refs[id].pc)
    ensures QueueOk(Step(j, id))
  {
    hide QueueOk;
    QueueStays(j, Step(j, id), id);
  }

  /** Only reference id changes, and neither counter nor references do. */
  lemma CountStays(j: Job, j': Job, id: RefId)
    requires CountOk(j) && id in j.refs && j'.refs.Keys == j.refs.Keys && !j.destroyed && !j'.destroyed
    requires forall i :: i in j.refs && i != id ==> j'.refs[i] == j.refs[i]
    requires j'.refcnt == j.refcnt && !AtZero(j.refs[id]) && !AtZero(j'.refs[id])
    requires Finishing(j'.refs[id]) ==> j.refs.Keys == {id}
    requires JS_FINISH in j'.flags.sigs ==> j.refs.Keys == {id} && Delivering(j', j'.refs[id])
    ensures CountOk(j')
  {
    assert |j'.refs| == |j'.refs.Keys| && |j.refs| == |j.refs.Keys|;
  }

  lemma AskingCount(j: Job, id: RefId)
    requires Inv(j) && id in j.refs && j.refs[id].Op? && Asking(j.refs[id].pc)
    ensures var j' := Step(j, id);
      && id in j'.refs && !AtZero(j.refs[id]) && !AtZero(j'.refs[id]) && !j.destroyed
      && (Finishing(j'.refs[id]) ==> j.refs.Keys == {id})
      && (JS_FINISH in j'.flags.sigs ==> j.refs.Keys == {id} && Delivering(j', j'.refs[id]))
      && CountOk(j)
  {
    hide QueueOk;
    if JS_FINISH in j.flags.sigs && JS_FINISH in j.allowed { assert JS_FINISH in j.flags.sigs * j.allowed; }
  }

  lemma AskingKeepsCount(j: Job, id: RefId)
    requires Inv(j) && id in j.refs && j.refs[id].Op? && Asking(j.refs[id].pc)
    ensures CountOk(Step(j, id))
  {
    hide CountOk, LockOk, QueueOk;
    AskingCount(j, id);
    CountStays(j, Step(j, id), id);
  }

  lemma AskingKeepsLocal(j: Job, id: RefId)
    requires Inv(j) && id in j.refs && j.refs[id].Op? && Asking(j.refs[id].pc)
    ensures forall i :: i in Step(j, id).refs ==> LocalOk(Step(j, id), Step(j, id).refs[i])
  {
    hide QueueOk;
  }

  lemma LockCasKeepsLock(j: Job, id: RefId)
    requires Inv(j) && id in j.refs && j.refs[id].Op? && j.refs[id].pc.LockCas?
    ensures LockOk(Step(j, id))
  {
    hide QueueOk;
  }

  lemma LockCasKeepsQueue(j: Job, id: RefId)
    requires Inv(j) && id in j.refs && j.refs[id].Op? && j.refs[id].pc.LockCas?
    ensures QueueOk(Step(j, id))
  {
    hide QueueOk;
    QueueStays(j, Step(j, id), id);
  }

  lemma LockCasCount(j: Job, id: RefId)
    requires Inv(j) && id in j.refs && j.refs[id].Op? && j.refs[id].pc.LockCas?
    ensures var j' := Step(j, id);
      && id in j'.refs && !AtZero(j.refs[id]) && !AtZero(j'.refs[id]) && !j.destroyed
      && (Finishing(j'.refs[id]) ==> j.refs.Keys == {id})
      && (JS_FINISH in j'.flags.sigs ==> j.refs.Keys == {id} && Delivering(j', j'.refs[id]))
      && CountOk(j)
  {
    hide QueueOk;
    if JS_FINISH in j.flags.sigs && JS_FINISH in j.allowed { assert JS_FINISH in j.flags.sigs * j.allowed; }
  }

  lemma LockCasKeepsCount(j: Job, id: RefId)
    requires Inv(j) && id in j.refs && j.refs[id].Op? && j.refs[id].pc.LockCas?
    ensures CountOk(Step(j, id))
  {
    hide CountOk, LockOk, QueueOk;
    LockCasCount(j, id);
    CountStays(j, Step(j, id), id);
  }

  lemma LockCasKeepsLocal(j: Job, id: RefId)
    requires Inv(j) && id in j.refs && j.refs[id].Op? && j.refs[id].pc.LockCas?
    ensures forall i :: i in Step(j, id).refs ==> LocalOk(Step(j, id), Step(j, id).refs[i])
  {
    hide QueueOk;
  }

  lemma DecidingKeepsLock(j: Job, id: RefId)
    requires Inv(j) && id in j.refs && j.refs[id].Op? && Deciding(j.refs[id].pc)
    ensures LockOk(Step(j, id))
  {
    hide QueueOk;
  }

  lemma DecidingKeepsQueue(j: Job, id: RefId)
    requires Inv(j) && id in j.refs && j.refs[id].Op? && Deciding(j.refs[id].pc)
    ensures QueueOk(Step(j, id))
  {
    hide QueueOk;
    QueueStays(j, Step(j, id), id);
  }

  lemma SoleCarries(j: Job, id: RefId, c: Class)
    requires QueueOk(j) && j.refs.Keys == {id} && c in j.flags.queued
    ensures Carries(j.refs[id], c)
  {
    var i :| i in j.refs && Carries(j.refs[i], c);
    assert i in j.refs.Keys;
  }

  lemma DecidingCount(j: Job, id: RefId)
    requires Inv(j) && id in j.refs && j.refs[id].Op? && Deciding(j.refs[id].pc)
    ensures var j' := Step(j, id);
      && id in j'.refs && !AtZero(j.refs[id]) && !AtZero(j'.refs[id]) && !j.destroyed
      && (Finishing(j'.refs[id]) ==> j.refs.Keys == {id})
      && (JS_FINISH in j'.flags.sigs ==> j.refs.Keys == {id} && Delivering(j', j'.refs[id]))
      && CountOk(j)
  {
    if JS_FINISH in j.flags.sigs {
      if JS_FINISH in j.allowed { assert JS_FINISH in j.flags.sigs * j.allowed; }
      if j.refs[id].pc.QueueCas? && j.refs[id].pc.c in j.flags.queued {
        SoleCarries(j, id, j.refs[id].pc.c);
      }
    }
  }

  lemma DecidingKeepsCount(j: Job, id: RefId)
    requires Inv(j) && id in j.refs && j.refs[id].Op? && Deciding(j.refs[id].pc)
    ensures CountOk(Step(j, id))
  {
    hide CountOk, LockOk, QueueOk;
    DecidingCount(j, id);
    CountStays(j, Step(j, id), id);
  }

  lemma DecidingKeepsLocal(j: Job, id: RefId)
    requires Inv(j) && id in j.refs && j.refs[id].Op? && Deciding(j.refs[id].pc)
    ensures forall i :: i in Step(j, id).refs ==> LocalOk(Step(j, id), Step(j, id).refs[i])
  {
    hide QueueOk;
  }

  lemma ServingKeepsLock(j: Job, id: RefId)
    requires Inv(j) && id in j.refs && j.refs[id].Op? && Serving(j.refs[id].pc)
    ensures LockOk(Step(j, id))
  {
    hide QueueOk;
  }

  lemma ServingKeepsQueue(j: Job, id: RefId)
    requires Inv(j) && id in j.refs && j.refs[id].Op? && Serving(j.refs[id].pc)
    ensures QueueOk(Step(j, id))
  {
    hide QueueOk;
    QueueStays(j, Step(j, id), id);
  }

  lemma ServingCount(j: Job, id: RefId)
    requires Inv(j) && id in j.refs && j.refs[id].Op? && Serving(j.refs[id].pc)
    ensures var j' := Step(j, id);
      && id in j'.refs && !AtZero(j.refs[id]) && !AtZero(j'.refs[id]) && !j.destroyed
      && (Finishing(j'.refs[id]) ==> j.refs.Keys == {id})
      && (JS_FINISH in j'.flags.sigs ==> j.refs.Keys == {id} && Delivering(j', j'.refs[id]))
      && CountOk(j)
  {
    hide QueueOk;
  }

  lemma ServingKeepsCount(j: Job, id: RefId)
    requires Inv(j) && id in j.refs && j.refs[id].Op? && Serving(j.refs[id].pc)
    ensures CountOk(Step(j, id))
  {
    hide CountOk, LockOk, QueueOk;
    ServingCount(j, id);
    CountStays(j, Step(j, id), id);
  }

  lemma ServingKeepsLocal(j: Job, id: RefId)
    requires Inv(j) && id in j.refs && j.refs[id].Op? && Serving(j.refs[id].pc)
    ensures forall i :: i in Step(j, id).refs ==> LocalOk(Step(j, id), Step(j, id).refs[i])
  {
    hide QueueOk;
  }

  lemma DroppingKeepsLock(j: Job, id: RefId)
    requires Inv(j) && id in j.refs && j.refs[id].Op? && Dropping(j.refs[id].pc)
    ensures LockOk(Step(j, id))
  {
    hide QueueOk;
  }

  lemma DroppingKeepsQueue(j: Job, id: RefId)
    requires Inv(j) && id in j.refs && j.refs[id].Op? && Dropping(j.refs[id].pc)
    ensures QueueOk(Step(j, id))
  {
    hide QueueOk;
    QueueStays(j, Step(j, id), id);
  }

  /** Looking at the counter before giving a reference up: one means this is the last. */
  lemma LookKeepsCount(j: Job, id: RefId)
    requires Inv(j) && id in j.refs && j.refs[id].Op?
    requires j.refs[id].pc.UnlockDec? || j.refs[id].pc.DecRead? || j.refs[id].pc.DecLast?
    ensures CountOk(Step(j, id))
  {
    hide QueueOk, LockOk;
    if |j.refs| == 1 { OnlyOne(j, id); }
    CountStays(j, Step(j, id), id);
  }

  lemma SubtractKeepsCount(j: Job, id: RefId)
    requires Inv(j) && id in j.refs && j.refs[id].Op? && !(j.refs[id].pc.UnlockDec? || j.refs[id].pc.DecRead?)
    requires Dropping(j.refs[id].pc) && !j.refs[id].pc.DecLast?
    ensures CountOk(Step(j, id))
  {
    hide QueueOk, LockOk;
    if |j.refs| == 1 { OnlyOne(j, id); }
  }

  lemma DroppingKeepsLocal(j: Job, id: RefId)
    requires Inv(j) && id in j.refs && j.refs[id].Op? && Dropping(j.refs[id].pc)
    ensures forall i :: i in Step(j, id).refs ==> LocalOk(Step(j, id), Step(j, id).refs[i])
  {
    hide QueueOk;
  }

  lemma StepKeepsInv(j: Job, id: RefId)
    requires Inv(j) && id in j.refs && j.refs[id].Op?
    ensures Inv(Step(j, id))
  {
    hide LockOk, QueueOk, CountOk, LocalOk, NothingElse, SendOk;
    StepKeepsRest(j, id);
    StepKeepsNothingElse(j, id);
    StepMoves(j, id);
    var pc := j.refs[id].pc;
    if Asking(pc) {
      AskingKeepsLock(j, id); AskingKeepsQueue(j, id); AskingKeepsCount(j, id); AskingKeepsLocal(j, id);
    } else if pc.LockCas? {
      LockCasKeepsLock(j, id); LockCasKeepsQueue(j, id); LockCasKeepsCount(j, id); LockCasKeepsLocal(j, id);
    } else if Deciding(pc) {
      DecidingKeepsLock(j, id); DecidingKeepsQueue(j, id); DecidingKeepsCount(j, id); DecidingKeepsLocal(j, id);
    } else if Serving(pc) {
      ServingKeepsLock(j, id); ServingKeepsQueue(j, id); ServingKeepsCount(j, id); ServingKeepsLocal(j, id);
    } else {
      DroppingKeepsLock(j, id); DroppingKeepsQueue(j, id); DroppingKeepsLocal(j, id);
      if pc.UnlockDec? || pc.DecRead? || pc.DecLast? { LookKeepsCount(j, id); } else { SubtractKeepsCount(j, id); }
    }
  }

  /** Only reference id moves, and what it sends is fit to be sent. */
  predicate Moves(refs: map<RefId, Ref>, refs': map<RefId, Ref>, id: RefId) {
    && (forall i :: i in refs' && i != id ==> i in refs && refs'[i] == refs[i])
    && (id in refs' ==> SendOk(refs'[id]))
  }

  /** What an operation that has nothing to do with sending becomes. */
  lemma NotSending(r: Ref)
    requires r.Op? ==> !r.pc.SendCheck? && !r.pc.SendOr? && !r.pc.LockRead? && !r.pc.LockCas?
    ensures SendOk(r)
  {
  }

  lemma NextSendOk(j: Job, id: RefId)
    requires |j.sigclass| == 8 && id in j.refs && j.refs[id].Op? && SendOk(j.refs[id])
    ensures id in Step(j, id).refs ==> SendOk(Step(j, id).refs[id])
  {
    hide Highest;
    if Asking(j.refs[id].pc) || j.refs[id].pc.LockCas? || j.refs[id].pc.DecLast? {
    } else if id in Step(j, id).refs {
      hide SendOk;
      NotSending(Step(j, id).refs[id]);
    }
  }

  /** A step leaves the other references alone. */
  lemma StepLeaves(j: Job, id: RefId, i: RefId)
    requires |j.sigclass| == 8 && id in j.refs && j.refs[id].Op? && i in Step(j, id).refs && i != id
    ensures i in j.refs && Step(j, id).refs[i] == j.refs[i]
  {
    hide Step, Highest;
    if Dropping(j.refs[id].pc) { DroppingLeaves(j, id, i); } else { OthersLeave(j, id, i); }
  }

  lemma DroppingLeaves(j: Job, id: RefId, i: RefId)
    requires |j.sigclass| == 8 && id in j.refs && j.refs[id].Op? && i in Step(j, id).refs && i != id
    requires Dropping(j.refs[id].pc)
    ensures i in j.refs && Step(j, id).refs[i] == j.refs[i]
  {
  }

  lemma OthersLeave(j: Job, id: RefId, i: RefId)
    requires |j.sigclass| == 8 && id in j.refs && j.refs[id].Op? && i in Step(j, id).refs && i != id
    requires !Dropping(j.refs[id].pc)
    ensures i in j.refs && Step(j, id).refs[i] == j.refs[i]
  {
    hide Highest, StepFaa;
  }

  lemma StepMoves(j: Job, id: RefId)
    requires |j.sigclass| == 8 && id in j.refs && j.refs[id].Op? && SendOk(j.refs[id])
    ensures Moves(j.refs, Step(j, id).refs, id)
  {
    hide Step, SendOk;
    NextSendOk(j, id);
    forall i | i in Step(j, id).refs && i != id ensures i in j.refs && Step(j, id).refs[i] == j.refs[i] {
      StepLeaves(j, id, i);
    }
  }

  lemma StepKeepsNothingElse(j: Job, id: RefId)
    requires Inv(j) && id in j.refs && j.refs[id].Op?
    ensures NothingElse(Step(j, id))
  {
    if SendsFinish(j.refs[id]) { FinishSentAlone(j, id); } else { NothingAdded(j, id); }
    hide QueueOk, CountOk, LockOk;
  }

  lemma NothingAdded(j: Job, id: RefId)
    requires CountOk(j) && |j.sigclass| == 8 && id in j.refs && j.refs[id].Op? && !SendsFinish(j.refs[id])
    ensures JS_FINISH in Step(j, id).flags.sigs && JS_FINISH !in j.allowed ==> JS_FINISH in j.flags.sigs
    ensures JS_FINISH in j.flags.sigs && JS_FINISH !in j.allowed ==> Step(j, id).flags.sigs <= j.flags.sigs
    ensures Step(j, id).allowed == j.allowed
  {
    assert JS_FINISH in j.flags.sigs ==> Delivering(j, j.refs[id]);
  }

  /** The access that makes JS_FINISH pending when it is not yet, by a signal. */
  predicate SendsFinish(r: Ref) {
    r.Op? && ((r.pc.SendOr? && JS_FINISH in r.pc.sigs) || (r.pc.LockCas? && JS_FINISH in LockSets(r.pc.why)))
  }

  /** Whoever sends JS_FINISH has the last reference, so nobody would attend to another signal: there is none. */
  lemma FinishSentAlone(j: Job, id: RefId)
    requires Inv(j) && id in j.refs && SendsFinish(j.refs[id])
    ensures j.refs.Keys == {id} && j.flags.sigs * j.allowed == {}
  {
    assert Finishing(j.refs[id]);
    assert j.refs.Keys == {id};
    assert forall i :: i in j.refs ==> i in j.refs.Keys;
    assert !Attends(j.refs[id]) && !HoldsLock(j.refs[id]);
  }

  lemma StepKeepsRest(j: Job, id: RefId)
    requires |j.sigclass| == 8 && id in j.refs && j.refs[id].Op?
    ensures Step(j, id).sigclass == j.sigclass && Step(j, id).allowed == j.allowed
  {
  }

  // ---------- what happens outside these functions ----------

  /** Starting an operation on a kept reference, or popping a queue. */
  lemma StartKeepsInv(j: Job, a: Action)
    requires Inv(j) && Enabled(j, a) && (a.StartSend? || a.StartDecref? || a.PopQueue?)
    ensures Inv(Act(j, a))
  {
    StartKeepsQueue(j, a);
    StartKeepsRest(j, a);
    StartKeepsLocal(j, a);
    hide QueueOk, CountOk, LockOk, LocalOk, SendOk;
  }

  lemma StartKeepsQueue(j: Job, a: Action)
    requires Inv(j) && Enabled(j, a) && (a.StartSend? || a.StartDecref? || a.PopQueue?)
    ensures QueueOk(Act(j, a))
  {
    hide QueueOk, CountOk, LockOk, LocalOk, SendOk;
    QueueStays(j, Act(j, a), a.id);
  }

  lemma StartKeepsLocal(j: Job, a: Action)
    requires Inv(j) && Enabled(j, a) && (a.StartSend? || a.StartDecref? || a.PopQueue?)
    ensures forall i :: i in Act(j, a).refs ==> LocalOk(Act(j, a), Act(j, a).refs[i]) && SendOk(Act(j, a).refs[i])
  {
    hide QueueOk, CountOk, LockOk;
  }

  lemma StartKeepsRest(j: Job, a: Action)
    requires Inv(j) && Enabled(j, a) && (a.StartSend? || a.StartDecref? || a.PopQueue?)
    ensures CountOk(Act(j, a)) && LockOk(Act(j, a))
  {
    StartKeepsLock(j, a);
    StartKeepsDelivery(j, a);
    hide QueueOk, LockOk, Delivering, Finishing;
    CountStays(j, Act(j, a), a.id);
  }

  lemma StartKeepsLock(j: Job, a: Action)
    requires LockOk(j) && Enabled(j, a) && (a.StartSend? || a.StartDecref? || a.PopQueue?)
    ensures LockOk(Act(j, a))
  {
  }

  /** An operation that starts does not finish the job, and takes over a pending JS_FINISH only from a queue. */
  lemma StartKeepsDelivery(j: Job, a: Action)
    requires CountOk(j) && Enabled(j, a) && (a.StartSend? || a.StartDecref? || a.PopQueue?)
    ensures !Finishing(Act(j, a).refs[a.id])
    ensures JS_FINISH in j.flags.sigs ==> j.refs.Keys == {a.id} && Delivering(Act(j, a), Act(j, a).refs[a.id])
  {
  }

  lemma IncrefKeepsInv(j: Job, id: RefId, other: RefId)
    requires Inv(j) && Enabled(j, Incref(id, other))
    ensures Inv(Act(j, Incref(id, other)))
  {
    var j' := Act(j, Incref(id, other));
    forall c | c in j'.flags.queued ensures exists i :: i in j'.refs && Carries(j'.refs[i], c) {
      var i :| i in j.refs && Carries(j.refs[i], c);
      assert i in j'.refs && Carries(j'.refs[i], c);
    }
    if !j'.flags.locked && j'.flags.sigs * j'.allowed != {} {
      var i :| i in j.refs && Attends(j.refs[i]);
      assert i in j'.refs && Attends(j'.refs[i]);
    }
    NoneFinishing(j, id);
  }

  /** A kept reference, or a callback other than that of JS_FINISH, means the job is not finishing. */
  lemma NoneFinishing(j: Job, id: RefId)
    requires Inv(j) && id in j.refs && (j.refs[id].Held? || (Runs(j, id) && j.refs[id].pc.s != JS_FINISH))
    ensures forall i :: i in j.refs ==> !Finishing(j.refs[i])
    ensures JS_FINISH !in j.flags.sigs
  {
    hide QueueOk;
    assert id in j.refs.Keys;
  }

  lemma CallbackKeepsInv(j: Job, a: Action)
    requires Inv(j) && Enabled(j, a) && (a.Change? || a.Return?)
    ensures Inv(Act(j, a))
  {
    hide QueueOk;
    QueueStays(j, Act(j, a), a.id);
    hide CountOk, LockOk;
    CallbackKeepsRest(j, a);
  }

  lemma CallbackKeepsRest(j: Job, a: Action)
    requires Inv(j) && Enabled(j, a) && (a.Change? || a.Return?)
    ensures CountOk(Act(j, a)) && LockOk(Act(j, a))
    ensures forall i :: i in Act(j, a).refs ==> LocalOk(Act(j, a), Act(j, a).refs[i])
  {
    hide QueueOk;
    if a.Return? { NoneFinishing(j, a.id); }
    CountStays(j, Act(j, a), a.id);
  }

  lemma DestroyKeepsInv(j: Job, id: RefId)
    requires Inv(j) && Enabled(j, Destroy(id))
    ensures Inv(Act(j, Destroy(id)))
  {
    hide QueueOk;
    var j' := Act(j, Destroy(id));
    assert j'.refs.Keys == {};
    assert j'.refs == map[];
    assert QueueOk(j') by { NoRefsQueueOk(j'); }
  }

  lemma NoRefsQueueOk(j: Job)
    requires j.flags == Flags(false, {}, {}, 0)
    ensures QueueOk(j)
  {
  }

  lemma ActKeepsInv(j: Job, a: Action)
    requires Inv(j) && Enabled(j, a)
    ensures Inv(Act(j, a))
  {
    hide LockOk, QueueOk, CountOk, LocalOk, Step;
    match a
    case Advance(id) => StepKeepsInv(j, id);
    case Incref(id, other) => IncrefKeepsInv(j, id, other);
    case StartSend(_, _, _, _) | StartDecref(_, _, _) | PopQueue(_, _, _) => StartKeepsInv(j, a);
    case Change(_, _, _, _, _) | Return(_, _) => CallbackKeepsInv(j, a);
    case Destroy(id) => DestroyKeepsInv(j, id);
  }

  // ---------- runs ----------

  /** The job after a run of actions; an action that is not possible is skipped. */
  ghost function Run(start: Job, acts: seq<Action>): Job {
    if acts == [] then start
    else
      var before := Run(start, acts[..|acts| - 1]);
      var a := acts[|acts| - 1];
      if Enabled(before, a) then Act(before, a) else before
  }

  lemma {:induction false} RunKeepsInv(start: Job, acts: seq<Action>)
    requires Inv(start)
    ensures Inv(Run(start, acts))
  {
    hide Inv, Act, Enabled;
    if acts != [] {
      var before := Run(start, acts[..|acts| - 1]);
      RunKeepsInv(start, acts[..|acts| - 1]);
      if Enabled(before, acts[|acts| - 1]) { ActKeepsInv(before, acts[|acts| - 1]); }
    }
  }

  /** At most one operation holds JF_LOCKED, and the bit is set exactly when one does. */
  lemma {:induction false} OneLockHolder(start: Job, acts: seq<Action>, a: RefId, b: RefId)
    requires Inv(start) && a in Run(start, acts).refs && b in Run(start, acts).refs
    requires HoldsLock(Run(start, acts).refs[a]) && HoldsLock(Run(start, acts).refs[b])
    ensures a == b && Run(start, acts).flags.locked
  {
    RunKeepsInv(start, acts);
  }

  /**
   No lost signal: whenever the job is unlocked with an allowed signal pending, it is in an
   execution queue, or some operation is about to push it, has popped it, or is about to
   try the lock again.
   */
  lemma {:induction false} NoLostSignal(start: Job, acts: seq<Action>)
    requires Inv(start)
    ensures var j := Run(start, acts);
      !j.flags.locked && j.flags.sigs * j.allowed != {} ==> exists id :: id in j.refs && Attends(j.refs[id])
  {
    RunKeepsInv(start, acts);
  }

  /** So when no operation is running, a job with an allowed signal pending is queued. */
  lemma {:induction false} AtRestQueued(start: Job, acts: seq<Action>)
    requires Inv(start)
    requires forall id :: id in Run(start, acts).refs ==> !Run(start, acts).refs[id].Op?
    requires Run(start, acts).flags.sigs * Run(start, acts).allowed != {}
    ensures exists id :: id in Run(start, acts).refs && Run(start, acts).refs[id].InQueue?
  {
    var j := Run(start, acts);
    RunKeepsInv(start, acts);
    assert !j.flags.locked;
    var id :| id in j.refs && Attends(j.refs[id]);
  }

  /** The counter tells the references, except while the last one is being given up. */
  lemma {:induction false} CounterIsReferences(start: Job, acts: seq<Action>)
    requires Inv(start)
    ensures var j := Run(start, acts);
      if exists id :: id in j.refs && AtZero(j.refs[id]) then j.refcnt == 0 && |j.refs| == 1 else j.refcnt == |j.refs|
  {
    var j := Run(start, acts);
    RunKeepsInv(start, acts);
    if id :| id in j.refs && AtZero(j.refs[id]) {
      assert j.refs.Keys == {id};
    }
  }

  /** JS_FINISH runs only when its thread owns the last reference; a destroyed job is referred to by nobody. */
  lemma {:induction false} FinishIsLast(start: Job, acts: seq<Action>, id: RefId)
    requires Inv(start) && id in Run(start, acts).refs
    ensures var j := Run(start, acts);
      && !j.destroyed
      && (j.refs[id].Op? && j.refs[id].pc == Execute(JS_FINISH) ==> j.refs.Keys == {id})
  {
    RunKeepsInv(start, acts);
  }

  /** The asserts of the source hold wherever an operation reaches them, except the one on unhandled JS_FINISH. */
  lemma {:induction false} AssertsHold(start: Job, acts: seq<Action>, id: RefId)
    requires Inv(start) && id in Run(start, acts).refs && Run(start, acts).refs[id].Op?
    ensures var j := Run(start, acts); var pc := j.refs[id].pc;
      && (pc.SendCheck? ==> j.refcnt > 0)
      && (pc.SendCheck? && pc.sigs <= j.flags.sigs ==> j.refcnt > 1 || JS_FINISH !in j.flags.sigs)
      && (pc.UnlockRead? ==> j.flags.locked)
      && (pc.UnlockLast? ==> j.refcnt == 1)
      && (pc.DecLast? ==> j.refcnt == 1)
  {
    var j := Run(start, acts);
    RunKeepsInv(start, acts);
    assert id in j.refs.Keys && |j.refs| == |j.refs.Keys|;
    if z :| z in j.refs && AtZero(j.refs[z]) { assert j.refs.Keys == {z}; }
  }

  // ---------- why JS_FINISH has to be allowed ----------

  /** The assert "unhandled JS_FINISH" of unlock_job is false at operation id. */
  predicate Unhandled(j: Job, id: RefId) {
    id in j.refs && j.refs[id].Op? && j.refs[id].pc.UnlockLast? && JS_FINISH !in j.allowed
  }

  /** The creator gives its job back without a signal to deliver. */
  const GIVE_BACK: seq<Action> := [Return(0, {}), Advance(0), Advance(0), Advance(0)]

  lemma GiveBack(allowed: set<Signal>, fast: set<Signal>, sigclass: seq<Class>, mask: set<Class>, busy: bool)
    requires |sigclass| == 8
    ensures var j := Run(Created(allowed, fast, sigclass, mask, busy), GIVE_BACK);
      j.allowed == allowed && 0 in j.refs && j.refs[0] == Op(UnlockLast, mask, busy)
  {
    var start := Created(allowed, fast, sigclass, mask, busy);
    var j1 := Act(start, GIVE_BACK[0]);
    var j2 := Act(j1, GIVE_BACK[1]);
    var j3 := Act(j2, GIVE_BACK[2]);
    hide Act, Enabled;
    RunNext(start, GIVE_BACK, 0);
    RunNext(start, GIVE_BACK, 1);
    RunNext(start, GIVE_BACK, 2);
    RunNext(start, GIVE_BACK, 3);
    assert GIVE_BACK[..4] == GIVE_BACK;
  }

  lemma {:induction false} RunNext(start: Job, acts: seq<Action>, n: nat)
    requires n < |acts|
    ensures var before := Run(start, acts[..n]);
      Run(start, acts[..n + 1]) == if Enabled(before, acts[n]) then Act(before, acts[n]) else before
    ensures Run(start, acts[..0]) == start
  {
    hide Act, Enabled;
    assert acts[..n + 1][..n] == acts[..n];
  }

  /** Whatever the callbacks set the status to, they set it to one of these. */
  predicate Sets(acts: seq<Action>, statuses: set<set<Signal>>) {
    forall k :: 0 <= k < |acts| && acts[k].Change? ==> acts[k].allowed in statuses
  }

  lemma {:induction false} AllowedIsOne(start: Job, acts: seq<Action>, statuses: set<set<Signal>>)
    requires Sets(acts, statuses)
    ensures Run(start, acts).allowed == start.allowed || Run(start, acts).allowed in statuses
  {
    hide Step;
    if acts != [] {
      var before := Run(start, acts[..|acts| - 1]);
      var a := acts[|acts| - 1];
      AllowedIsOne(start, acts[..|acts| - 1], statuses);
      if Enabled(before, a) && a.Advance? { StepKeepsRest(before, a.id); }
    }
  }

  /** The creator, or a callback, sets the status and gives its reference back without a signal to deliver. */
  lemma ChangeAndGiveBack(allowed: set<Signal>, fast: set<Signal>, sigclass: seq<Class>, mask: set<Class>, busy: bool, st: set<Signal>)
    returns (acts: seq<Action>)
    requires |sigclass| == 8
    ensures Sets(acts, {st})
    ensures var j := Run(Created(allowed, fast, sigclass, mask, busy), acts);
      j.allowed == st && 0 in j.refs && j.refs[0] == Op(UnlockLast, mask, busy)
  {
    hide Created, Sets, Act;
    var start := Created(allowed, fast, sigclass, mask, busy);
    var change := Change(0, st, fast, sigclass, 0);
    acts := [change] + GIVE_BACK;
    ChangedIsCreated(allowed, fast, sigclass, mask, busy, st);
    RunAfter(start, change, GIVE_BACK);
    GiveBack(st, fast, sigclass, mask, busy);
    OnlyOneChange(change, st);
  }

  lemma OnlyOneChange(change: Action, st: set<Signal>)
    requires change.Change? && change.allowed == st
    ensures Sets([change] + GIVE_BACK, {st})
  {
  }

  lemma ChangedIsCreated(allowed: set<Signal>, fast: set<Signal>, sigclass: seq<Class>, mask: set<Class>, busy: bool, st: set<Signal>)
    requires |sigclass| == 8
    ensures var start := Created(allowed, fast, sigclass, mask, busy); var a := Change(0, st, fast, sigclass, 0);
      Enabled(start, a) && Act(start, a) == Created(st, fast, sigclass, mask, busy)
  {
  }

  lemma {:induction false} RunAfter(start: Job, a: Action, acts: seq<Action>)
    requires Enabled(start, a)
    ensures Run(start, [a] + acts) == Run(Act(start, a), acts)
    decreases |acts|
  {
    hide Act, Enabled;
    var all := [a] + acts;
    if acts == [] {
      assert all[..0] == [];
      RunNext(start, all, 0);
      assert all[..1] == all;
    } else {
      RunAfter(start, a, acts[..|acts| - 1]);
      assert all[..|all| - 1] == [a] + acts[..|acts| - 1];
    }
  }

  /**
   That assert holds in every run, with any creation status and callbacks that set statuses of some
   collection, if and only if all of these allow JS_FINISH.
   */
  lemma FinishHandledExactly(allowed: set<Signal>, fast: set<Signal>, sigclass: seq<Class>, mask: set<Class>, busy: bool,
                             statuses: set<set<Signal>>)
    requires |sigclass| == 8
    ensures (forall acts: seq<Action>, id: RefId | Sets(acts, statuses) ::
               !Unhandled(Run(Created(allowed, fast, sigclass, mask, busy), acts), id))
       <==> JS_FINISH in allowed && forall st :: st in statuses ==> JS_FINISH in st
  {
    hide Run, Created, Sets;
    var start := Created(allowed, fast, sigclass, mask, busy);
    CreatedAllows(allowed, fast, sigclass, mask, busy);
    if JS_FINISH !in allowed {
      GiveBack(allowed, fast, sigclass, mask, busy);
      NoChange(statuses);
      assert Unhandled(Run(start, GIVE_BACK), 0);
    } else if st :| st in statuses && JS_FINISH !in st {
      var acts := ChangeAndGiveBack(allowed, fast, sigclass, mask, busy, st);
      SetsMore(acts, st, statuses);
      assert Unhandled(Run(start, acts), 0);
    } else {
      forall acts: seq<Action>, id: RefId | Sets(acts, statuses) ensures !Unhandled(Run(start, acts), id) {
        AllowedIsOne(start, acts, statuses);
      }
    }
  }

  lemma CreatedAllows(allowed: set<Signal>, fast: set<Signal>, sigclass: seq<Class>, mask: set<Class>, busy: bool)
    ensures Created(allowed, fast, sigclass, mask, busy).allowed == allowed
  {
  }

  lemma NoChange(statuses: set<set<Signal>>)
    ensures Sets(GIVE_BACK, statuses)
  {
  }

  lemma SetsMore(acts: seq<Action>, st: set<Signal>, statuses: set<set<Signal>>)
    requires Sets(acts, {st}) && st in statuses
    ensures Sets(acts, statuses)
  {
  }
}
