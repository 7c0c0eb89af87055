/**
 The lock-free queue as a list of blocks (mpq_push and mpq_pop of
 server/common/mp-queue.c), on top of the steps of MpQueueBlock.

 Blocks are never freed or reused, so block i + 1 is what mqb_next of block i points to
 and the last block is the one whose mqb_next is null. Hazard pointers play no part.
 */
module MpQueue {
  import B = MpQueueBlock

  type OpId = B.OpId

  const SMALL_BLOCK := 64
  const LARGE_BLOCK := 4096

  /** A place a value is pushed to: a ticket of a block. */
  datatype Pos = Pos(blk: nat, t: nat)

  predicate Before(p: Pos, q: Pos) {
    p.blk < q.blk || (p.blk == q.blk && p.t < q.t)
  }

  datatype Pc =
    | PopReadHead
    | PopRecheck(qb: nat)
    | PopFirst(qb: nat)                           // inside the first mpq_block_pop
    | PopReadNext(qb: nat)
    | PopSecond(qb: nat)                          // inside the second mpq_block_pop
    | PopMoveHead(qb: nat)
    | PopDone(val: nat, pos: Pos)
    | PopNone                                     // returned null
    | PushReadTail(v: nat)
    | PushRecheck(v: nat, qb: nat)
    | PushReadNext(v: nat, qb: nat)
    | PushSkip(v: nat, qb: nat)                   // move mq_tail to the next block
    | PushBlock(v: nat, qb: nat)                  // inside mpq_block_push
    | PushReadHead(v: nat, qb: nat)               // is the new block a small one?
    | PushLink(v: nat, qb: nat, size: nat)        // compare-and-swap mqb_next
    | PushMoveTail(v: nat, qb: nat)
    | PushDone(v: nat, pos: Pos)

  datatype Queue = Queue(
    blocks: seq<B.Block>, head: nat, tail: nat, ops: map<OpId, Pc>,
    began: map<OpId, set<Pos>>)   // history: the places of the pushes that had returned when a push began

  function Empty(): Queue {
    Queue([B.Fresh(SMALL_BLOCK, 0, 0)], 0, 0, map[], map[])
  }

  predicate PushPc(pc: Pc) {
    !(pc.PopReadHead? || pc.PopRecheck? || pc.PopFirst? || pc.PopReadNext? || pc.PopSecond? || pc.PopMoveHead?
      || pc.PopDone? || pc.PopNone?)
  }

  /** The operation is inside a block function. */
  predicate Inside(pc: Pc) {
    pc.PopFirst? || pc.PopSecond? || pc.PushBlock?
  }

  predicate HasBlock(pc: Pc) {
    Inside(pc) || pc.PopRecheck? || pc.PopReadNext? || pc.PopMoveHead? || pc.PushRecheck? || pc.PushReadNext?
    || pc.PushSkip? || pc.PushReadHead? || pc.PushLink? || pc.PushMoveTail?
  }

  // ---------- steps ----------

  /** Every block index an operation holds is real, and so is its place inside the block. */
  ghost predicate Linked(q: Queue) {
    && q.head < |q.blocks| && q.tail < |q.blocks|
    && (forall i :: 0 <= i < |q.blocks| ==> |q.blocks[i].cells| > 0)
    && (forall id :: id in q.ops && HasBlock(q.ops[id]) ==>
          q.ops[id].qb < |q.blocks| && (Inside(q.ops[id]) ==> id in q.blocks[q.ops[id].qb].ops))
  }

  function To(q: Queue, id: OpId, pc: Pc): Queue {
    q.(ops := q.ops[id := pc])
  }

  function InBlock(q: Queue, id: OpId, i: nat, b: B.Block, pc: Pc): Queue
    requires i < |q.blocks|
  {
    q.(blocks := q.blocks[i := b], ops := q.ops[id := pc])
  }

  function Enter(q: Queue, id: OpId, i: nat, inner: B.Pc, pc: Pc): Queue
    requires i < |q.blocks|
  {
    InBlock(q, id, i, B.Goto(q.blocks[i], id, inner), pc)
  }

  function Leave(q: Queue, id: OpId, i: nat, pc: Pc): Queue
    requires i < |q.blocks|
  {
    InBlock(q, id, i, B.Retire(q.blocks[i], id), pc)
  }

  function StepInside(q: Queue, id: OpId, pc: Pc): Queue
    requires Inside(pc) && pc.qb < |q.blocks| && id in q.blocks[pc.qb].ops && |q.blocks[pc.qb].cells| > 0
  {
    var b := q.blocks[pc.qb];
    match b.ops[id]
    case PopGot(h, val) => Leave(q, id, pc.qb, PopDone(val, Pos(pc.qb, h)))
    case PopEmpty(_) => Leave(q, id, pc.qb, if pc.PopFirst? then PopReadNext(pc.qb) else PopMoveHead(pc.qb))
    case PushDone(v, t) => Leave(q, id, pc.qb, PushDone(v, Pos(pc.qb, t)))
    case PushFailed(v) => Leave(q, id, pc.qb, PushReadHead(v, pc.qb))
    case _ => InBlock(q, id, pc.qb, B.Step(b, id), pc)
  }

  /** The compare-and-swap of mqb_next from null to a new block that already holds v. */
  function StepLink(q: Queue, id: OpId, v: nat, qb: nat, size: nat): Queue
    requires size > 0
  {
    if qb + 1 == |q.blocks| then
      To(q, id, PushMoveTail(v, qb)).(blocks := q.blocks + [B.Fresh(size, id, v)])
    else
      To(q, id, PushReadTail(v))
  }

  /** The next step of operation id makes sense: it is there and what it points to exists. */
  ghost predicate Ready(q: Queue, id: OpId) {
    && id in q.ops
    && (q.ops[id].PushLink? ==> q.ops[id].size > 0)
    && (HasBlock(q.ops[id]) ==> q.ops[id].qb < |q.blocks|)
    && (Inside(q.ops[id]) ==> id in q.blocks[q.ops[id].qb].ops && |q.blocks[q.ops[id].qb].cells| > 0)
  }

  ghost function Step(q: Queue, id: OpId): Queue
    requires Ready(q, id)
  {
    var pc := q.ops[id];
    match pc
    case PopReadHead => To(q, id, PopRecheck(q.head))
    case PopRecheck(qb) => if q.head != qb then To(q, id, PopReadHead) else Enter(q, id, qb, B.PopTake, PopFirst(qb))
    case PopReadNext(qb) =>
      if qb + 1 == |q.blocks| then To(q, id, PopNone) else Enter(q, id, qb, B.PopTake, PopSecond(qb))
    case PopMoveHead(qb) => To(q, id, PopReadHead).(head := if q.head == qb then qb + 1 else q.head)
    case PushReadTail(v) => To(q, id, PushRecheck(v, q.tail))
    case PushRecheck(v, qb) => To(q, id, if q.tail != qb then PushReadTail(v) else PushReadNext(v, qb))
    case PushReadNext(v, qb) =>
      if qb + 1 < |q.blocks| then To(q, id, PushSkip(v, qb)) else Enter(q, id, qb, B.PushTake(v, 0), PushBlock(v, qb))
    case PushSkip(v, qb) => To(q, id, PushReadTail(v)).(tail := if q.tail == qb then qb + 1 else q.tail)
    case PushReadHead(v, qb) => To(q, id, PushLink(v, qb, if q.head == qb then SMALL_BLOCK else LARGE_BLOCK))
    case PushLink(v, qb, size) => StepLink(q, id, v, qb, size)
    case PushMoveTail(v, qb) =>
      To(q, id, PushDone(v, Pos(qb + 1, 0))).(tail := if q.tail == qb then qb + 1 else q.tail)
    case PopDone(_, _) | PopNone | PushDone(_, _) => q
    case _ => StepInside(q, id, pc)
  }

  // ---------- invariant ----------

  predicate IsPushed(q: Queue, p: Pos) {
    p.blk < |q.blocks| && p.t in q.blocks[p.blk].pushed
  }

  predicate IsPopped(q: Queue, p: Pos) {
    p.blk < |q.blocks| && p.t in q.blocks[p.blk].popped
  }

  /** Some pop in flight holds the ticket of p and has not dealt with its cell: p is its to take. */
  predicate IsClaimed(q: Queue, p: Pos) {
    p.blk < |q.blocks| && p.t in q.blocks[p.blk].open
  }

  ghost predicate BlocksOk(q: Queue) {
    && q.head < |q.blocks| && q.tail < |q.blocks|
    && (forall i :: 0 <= i < |q.blocks| ==> B.Inv(q.blocks[i]))
    && (forall i :: 0 <= i < q.head ==> B.Drained(q.blocks[i]))
    && (forall i :: q.head < i < |q.blocks| ==> q.blocks[i].head == 0)
    && (forall i :: 0 <= i < |q.blocks| - 1 ==> q.blocks[i].closed)
    && (forall i, id :: 0 <= i < |q.blocks| && id in q.blocks[i].ops ==>
          id in q.ops && Inside(q.ops[id]) && q.ops[id].qb == i)
  }

  ghost predicate PopOk(q: Queue, id: OpId, pc: Pc) {
    && (!PushPc(pc) && HasBlock(pc) ==> pc.qb <= q.head && pc.qb < |q.blocks|)
    && (pc.PopFirst? || pc.PopSecond? ==> id in q.blocks[pc.qb].ops && !B.PushPc(q.blocks[pc.qb].ops[id]))
    && (pc.PopSecond? ==>
          && pc.qb + 1 < |q.blocks|
          && (B.Emptied(q.blocks[pc.qb].ops[id]) ==> q.blocks[pc.qb].ops[id].sawClosed))
    && (pc.PopMoveHead? ==> pc.qb + 1 < |q.blocks| && B.Drained(q.blocks[pc.qb]))
    && (pc.PopDone? ==>
          && pc.val != 0 && IsPopped(q, pc.pos) && q.blocks[pc.pos.blk].popped[pc.pos.t] == id
          && IsPushed(q, pc.pos) && q.blocks[pc.pos.blk].pushed[pc.pos.t].val == pc.val)
  }

  ghost predicate PushOk(q: Queue, id: OpId, pc: Pc) {
    && (PushPc(pc) ==> pc.v != 0)
    && (PushPc(pc) && HasBlock(pc) ==> pc.qb <= q.tail || (pc.PushMoveTail? && pc.qb < |q.blocks|))
    && (PushPc(pc) && HasBlock(pc) ==> pc.qb < |q.blocks|)
    && (pc.PushBlock? ==>
          && id in q.blocks[pc.qb].ops && B.PushPc(q.blocks[pc.qb].ops[id]) && q.blocks[pc.qb].ops[id].v == pc.v)
    && (pc.PushSkip? ==> pc.qb + 1 < |q.blocks|)
    && (pc.PushReadHead? || pc.PushLink? ==> q.blocks[pc.qb].closed)
    && (pc.PushLink? ==> pc.size > 0)
    && (pc.PushMoveTail? ==>
          && pc.qb + 1 < |q.blocks| && pc.qb <= q.tail
          && 0 in q.blocks[pc.qb + 1].pushed && q.blocks[pc.qb + 1].pushed[0] == B.Push(id, pc.v))
    && (pc.PushDone? ==>
          IsPushed(q, pc.pos) && q.blocks[pc.pos.blk].pushed[pc.pos.t] == B.Push(id, pc.v) && pc.pos.blk <= q.tail)
  }

  /** Wherever the value of push id goes, it goes after every place in `began`. */
  ghost predicate OrderOk(q: Queue, id: OpId, pc: Pc, began: set<Pos>) {
    && (forall p :: p in began ==> IsPushed(q, p) && p.blk <= q.tail)
    && (PushPc(pc) && HasBlock(pc) ==> forall p :: p in began ==> p.blk <= pc.qb)
    && (pc.PushBlock? && pc.qb < |q.blocks| && id in q.blocks[pc.qb].ops
        && (B.Pushing(q.blocks[pc.qb].ops[id]) || q.blocks[pc.qb].ops[id].PushDone?) ==>
          forall p :: p in began ==> Before(p, Pos(pc.qb, q.blocks[pc.qb].ops[id].t)))
    && (pc.PushDone? ==> forall p :: p in began ==> Before(p, pc.pos))
  }

  ghost predicate OpOk(q: Queue, id: OpId)
    requires id in q.ops && id in q.began
  {
    PopOk(q, id, q.ops[id]) && PushOk(q, id, q.ops[id]) && OrderOk(q, id, q.ops[id], q.began[id])
  }

  ghost predicate Inv(q: Queue) {
    && BlocksOk(q)
    && q.began.Keys == q.ops.Keys
    && (forall id :: id in q.ops ==> OpOk(q, id))
  }

  lemma InvLinked(q: Queue)
    requires Inv(q)
    ensures Linked(q) && forall id :: id in q.ops && q.ops[id].PushLink? ==> q.ops[id].size > 0
  {
    hide B.Inv, B.Drained, OrderOk;
    forall i | 0 <= i < |q.blocks| ensures |q.blocks[i].cells| > 0 { B.HistoryFacts(q.blocks[i]); }
    forall id | id in q.ops ensures PopOk(q, id, q.ops[id]) && PushOk(q, id, q.ops[id]) { assert OpOk(q, id); }
  }

  // ---------- what a step of one operation does to the others ----------

  ghost predicate Grows(q: Queue, q': Queue, id: OpId) {
    && |q.blocks| <= |q'.blocks| && q.head <= q'.head && q.tail <= q'.tail
    && (forall i :: 0 <= i < |q.blocks| ==> B.Grows(q.blocks[i], q'.blocks[i], id))
    && (forall j :: j in q.ops ==> j in q'.ops && j in q'.began)
    && (forall j :: j in q.ops && j != id ==> q'.ops[j] == q.ops[j])
    && (forall j :: j in q.began ==> j in q'.began && q'.began[j] == q.began[j])
  }

  lemma OthersStayOk(q: Queue, q': Queue, id: OpId, j: OpId)
    requires Inv(q) && j in q.ops && j != id && Grows(q, q', id)
    ensures OpOk(q', j)
  {
    assert OpOk(q, j);
    hide BlocksOk, PopOk, PushOk, OrderOk;
    OthersPopOk(q, q', id, j);
    OthersPushOk(q, q', id, j);
    OthersOrderOk(q, q', id, j);
  }

  lemma OthersPopOk(q: Queue, q': Queue, id: OpId, j: OpId)
    requires j in q.ops && j != id && Grows(q, q', id) && PopOk(q, j, q.ops[j])
    ensures PopOk(q', j, q.ops[j])
  {
  }

  lemma OthersPushOk(q: Queue, q': Queue, id: OpId, j: OpId)
    requires j in q.ops && j != id && Grows(q, q', id) && PushOk(q, j, q.ops[j])
    ensures PushOk(q', j, q.ops[j])
  {
  }

  lemma OthersOrderOk(q: Queue, q': Queue, id: OpId, j: OpId)
    requires j in q.ops && j in q.began && j != id && Grows(q, q', id) && OrderOk(q, j, q.ops[j], q.began[j])
    ensures OrderOk(q', j, q.ops[j], q.began[j])
  {
  }

  lemma BlockGrowsItself(b: B.Block, id: OpId)
    ensures B.Grows(b, b, id)
  {
  }

  lemma OpsStayOk(q: Queue, q': Queue, id: OpId)
    requires Inv(q) && id in q.ops && id in q'.ops && q'.ops.Keys == q.ops.Keys && q'.began == q.began
    requires BlocksOk(q') && Grows(q, q', id) && OpOk(q', id)
    ensures Inv(q')
  {
    hide B.Inv, BlocksOk, Grows, OpOk;
    forall j | j in q'.ops ensures OpOk(q', j) {
      if j != id { OthersStayOk(q, q', id, j); }
    }
  }

  /** A step that moves neither blocks nor values: id changes place, mq_head or mq_tail may advance. */
  lemma OuterStep(q: Queue, q': Queue, id: OpId)
    requires Inv(q) && id in q.ops && !Inside(q.ops[id])
    requires id in q'.ops && q' == q.(head := q'.head, tail := q'.tail, ops := q.ops[id := q'.ops[id]])
    requires q'.tail < |q.blocks| && q.tail <= q'.tail
    requires q.head == q'.head || (q'.head == q.head + 1 < |q.blocks| && B.Drained(q.blocks[q.head]))
    requires OpOk(q', id)
    ensures Inv(q')
  {
    hide B.Inv, OpOk, B.Drained;
    forall i | 0 <= i < |q.blocks| ensures B.Grows(q.blocks[i], q'.blocks[i], id) {
      BlockGrowsItself(q.blocks[i], id);
    }
    hide B.Grows;
    OpsStayOk(q, q', id);
  }

  /** Block i becomes b. */
  lemma InBlockBlocks(q: Queue, id: OpId, i: nat, b: B.Block, pc: Pc)
    requires Inv(q) && id in q.ops && i < |q.blocks|
    requires B.Inv(b) && B.Grows(q.blocks[i], b, id)
    requires i <= q.head || b.head == q.blocks[i].head
    requires Inside(q.ops[id]) ==> q.ops[id].qb == i
    requires id in b.ops ==> Inside(pc) && pc.qb == i
    ensures BlocksOk(InBlock(q, id, i, b, pc))
  {
    hide B.Inv, OpOk;
    var q' := InBlock(q, id, i, b, pc);
    forall k, j | 0 <= k < |q'.blocks| && j in q'.blocks[k].ops
      ensures j in q'.ops && Inside(q'.ops[j]) && q'.ops[j].qb == k
    {
      if j != id { assert j in q.blocks[k].ops; }
    }
  }

  lemma InBlockGrows(q: Queue, id: OpId, i: nat, b: B.Block, pc: Pc)
    requires i < |q.blocks| && id in q.ops && q.ops.Keys == q.began.Keys && B.Grows(q.blocks[i], b, id)
    ensures Grows(q, InBlock(q, id, i, b, pc), id)
  {
    var q' := InBlock(q, id, i, b, pc);
    hide B.Grows;
    forall k | 0 <= k < |q.blocks| ensures B.Grows(q.blocks[k], q'.blocks[k], id) {
      BlockGrowsItself(q.blocks[k], id);
    }
  }

  lemma InBlockKeepsInv(q: Queue, id: OpId, i: nat, b: B.Block, pc: Pc)
    requires Inv(q) && id in q.ops && i < |q.blocks|
    requires B.Inv(b) && B.Grows(q.blocks[i], b, id)
    requires i <= q.head || b.head == q.blocks[i].head
    requires Inside(q.ops[id]) ==> q.ops[id].qb == i
    requires id in b.ops ==> Inside(pc) && pc.qb == i
    requires OpOk(InBlock(q, id, i, b, pc), id)
    ensures Inv(InBlock(q, id, i, b, pc))
  {
    hide B.Inv, B.Grows, OpOk, BlocksOk, Grows;
    InBlockBlocks(q, id, i, b, pc);
    InBlockGrows(q, id, i, b, pc);
    OpsStayOk(q, InBlock(q, id, i, b, pc), id);
  }

  /** The pushes that had returned before id began are still where they were. */
  lemma BeganStays(q: Queue, q': Queue, id: OpId)
    requires id in q.ops && id in q.began && OrderOk(q, id, q.ops[id], q.began[id]) && Grows(q, q', id)
    ensures forall p :: p in q.began[id] ==> IsPushed(q', p) && p.blk <= q'.tail
  {
    forall p | p in q.began[id] ensures IsPushed(q', p) && p.blk <= q'.tail {
      assert IsPushed(q, p) && B.Grows(q.blocks[p.blk], q'.blocks[p.blk], id);
    }
  }

  lemma PopOpOk(q: Queue, q': Queue, id: OpId)
    requires id in q.ops && id in q.began && OrderOk(q, id, q.ops[id], q.began[id]) && Grows(q, q', id)
    requires !PushPc(q'.ops[id]) && PopOk(q', id, q'.ops[id])
    ensures OpOk(q', id)
  {
    BeganStays(q, q', id);
    hide Grows, PopOk;
  }

  /** The block an operation holds, if it is not the tail just read, is the one it held before. */
  predicate KeepsBlock(q: Queue, pc: Pc, pc': Pc) {
    HasBlock(pc') ==> (PushPc(pc) && HasBlock(pc) && pc'.qb == pc.qb) || pc'.qb == q.tail
  }

  /** Inside mpq_block_push, holding a ticket. */
  ghost predicate HasTicket(q: Queue, id: OpId, pc: Pc) {
    && pc.PushBlock? && pc.qb < |q.blocks| && id in q.blocks[pc.qb].ops
    && (B.Pushing(q.blocks[pc.qb].ops[id]) || q.blocks[pc.qb].ops[id].PushDone?)
  }

  lemma PushOpOk(q: Queue, q': Queue, id: OpId)
    requires id in q.ops && id in q.began && OrderOk(q, id, q.ops[id], q.began[id]) && Grows(q, q', id)
    requires PushPc(q'.ops[id]) && PushOk(q', id, q'.ops[id])
    requires KeepsBlock(q, q.ops[id], q'.ops[id]) && !HasTicket(q', id, q'.ops[id]) && !q'.ops[id].PushDone?
    ensures OpOk(q', id)
  {
    BeganStays(q, q', id);
    hide Grows, PushOk;
  }

  lemma PushDoneOpOk(q: Queue, q': Queue, id: OpId)
    requires id in q.ops && id in q.began && OrderOk(q, id, q.ops[id], q.began[id]) && Grows(q, q', id)
    requires q'.ops[id].PushDone? && PushOk(q', id, q'.ops[id])
    requires forall p :: p in q.began[id] ==> Before(p, q'.ops[id].pos)
    ensures OpOk(q', id)
  {
    BeganStays(q, q', id);
    hide Grows, PushOk;
  }

  lemma PushTicketOpOk(q: Queue, q': Queue, id: OpId)
    requires id in q.ops && id in q.began && OrderOk(q, id, q.ops[id], q.began[id]) && Grows(q, q', id)
    requires HasTicket(q', id, q'.ops[id]) && PushOk(q', id, q'.ops[id]) && KeepsBlock(q, q.ops[id], q'.ops[id])
    requires var pc := q'.ops[id]; var t := q'.blocks[pc.qb].ops[id].t;
      forall p :: p in q.began[id] && p.blk == pc.qb ==> p.t < t
    ensures OpOk(q', id)
  {
    BeganStays(q, q', id);
    hide Grows, PushOk;
  }

  // ---------- pops ----------

  lemma OuterGrows(q: Queue, q': Queue, id: OpId)
    requires q.ops.Keys == q.began.Keys && id in q.ops && id in q'.ops
    requires q' == q.(head := q'.head, tail := q'.tail, ops := q.ops[id := q'.ops[id]])
    requires q.head <= q'.head && q.tail <= q'.tail
    ensures Grows(q, q', id)
  {
    forall i | 0 <= i < |q.blocks| ensures B.Grows(q.blocks[i], q'.blocks[i], id) {
      BlockGrowsItself(q.blocks[i], id);
    }
  }

  lemma PopOuterOk(q: Queue, id: OpId)
    requires Linked(q) && id in q.ops && PopOk(q, id, q.ops[id])
    requires q.ops[id].PopReadHead? || (q.ops[id].PopRecheck? && q.head != q.ops[id].qb) || q.ops[id].PopMoveHead?
      || (q.ops[id].PopReadNext? && q.ops[id].qb + 1 == |q.blocks|)
    ensures var q' := Step(q, id);
      && id in q'.ops && PopOk(q', id, q'.ops[id]) && !PushPc(q'.ops[id])
      && q' == q.(head := q'.head, tail := q.tail, ops := q.ops[id := q'.ops[id]])
      && (q.head == q'.head || (q'.head == q.head + 1 < |q.blocks| && B.Drained(q.blocks[q.head])))
  {
    hide B.Drained;
  }

  lemma PopOuterKeepsInv(q: Queue, id: OpId)
    requires Inv(q) && Linked(q) && id in q.ops
    requires q.ops[id].PopReadHead? || (q.ops[id].PopRecheck? && q.head != q.ops[id].qb) || q.ops[id].PopMoveHead?
      || (q.ops[id].PopReadNext? && q.ops[id].qb + 1 == |q.blocks|)
    ensures Inv(Step(q, id))
  {
    assert OpOk(q, id) && q.tail < |q.blocks|;
    assert q.began.Keys == q.ops.Keys;
    hide B.Inv, B.Drained, B.Grows, OrderOk, PushOk, OpOk, Grows, PopOk, Inv;
    PopOuterOk(q, id);
    var q' := Step(q, id);
    hide Step;
    OuterGrows(q, q', id);
    PopOpOk(q, q', id);
    OuterStep(q, q', id);
  }

  lemma PopEnterKeepsInv(q: Queue, id: OpId, qb: nat, pc: Pc)
    requires Inv(q) && id in q.ops && !Inside(q.ops[id]) && qb < |q.blocks| && qb <= q.head
    requires pc == PopFirst(qb) || (pc == PopSecond(qb) && qb + 1 < |q.blocks|)
    ensures Inv(Enter(q, id, qb, B.PopTake, pc))
  {
    hide B.Inv, B.Grows, Inv, OpOk, Grows, OrderOk, BlocksOk, PushOk, PopOk;
    var b := q.blocks[qb];
    PopEnters(q, id, qb, pc);
    B.StartKeepsInv(b, id, B.PopTake);
    InBlockGrows(q, id, qb, B.Goto(b, id, B.PopTake), pc);
    PopOpOk(q, Enter(q, id, qb, B.PopTake, pc), id);
    InBlockKeepsInv(q, id, qb, B.Goto(b, id, B.PopTake), pc);
  }

  lemma PopEnters(q: Queue, id: OpId, qb: nat, pc: Pc)
    requires Inv(q) && id in q.ops && !Inside(q.ops[id]) && qb < |q.blocks| && qb <= q.head
    requires pc == PopFirst(qb) || (pc == PopSecond(qb) && qb + 1 < |q.blocks|)
    ensures q.ops.Keys == q.began.Keys && OrderOk(q, id, q.ops[id], q.began[id])
    ensures id !in q.blocks[qb].ops && B.Inv(q.blocks[qb])
    ensures PopOk(Enter(q, id, qb, B.PopTake, pc), id, pc)
  {
    hide B.Inv, OrderOk;
    assert OpOk(q, id);
  }

  lemma PopReturnOk(q: Queue, id: OpId, pc: Pc)
    requires (pc.PopFirst? || pc.PopSecond?) && PopOk(q, id, pc) && B.Inv(q.blocks[pc.qb])
    requires var ip := q.blocks[pc.qb].ops[id]; ip.PopGot? || ip.PopEmpty?
    ensures |q.blocks[pc.qb].cells| > 0
    ensures PopOk(StepInside(q, id, pc), id, StepInside(q, id, pc).ops[id])
  {
    var b := q.blocks[pc.qb];
    B.StateFacts(b, id);
    hide B.Inv, B.Drained, B.Step, PopOk;
    match b.ops[id]
    case PopGot(h, val) => PopGotOk(q, id, pc, h, val);
    case PopEmpty(_) => PopEmptyOk(q, id, pc);
  }

  lemma PopGotOk(q: Queue, id: OpId, pc: Pc, h: nat, val: nat)
    requires Inside(pc) && pc.qb < |q.blocks| && id in q.blocks[pc.qb].ops && val != 0
    requires var b := q.blocks[pc.qb];
      h in b.popped && b.popped[h] == id && h in b.pushed && b.pushed[h].val == val
    ensures PopOk(Leave(q, id, pc.qb, PopDone(val, Pos(pc.qb, h))), id, PopDone(val, Pos(pc.qb, h)))
  {
    hide B.Drained;
  }

  lemma PopEmptyOk(q: Queue, id: OpId, pc: Pc)
    requires (pc.PopFirst? || pc.PopSecond?) && PopOk(q, id, pc) && pc.qb < |q.blocks| && id in q.blocks[pc.qb].ops
    requires q.blocks[pc.qb].ops[id].PopEmpty?
    requires q.blocks[pc.qb].ops[id].sawClosed ==> B.Drained(q.blocks[pc.qb])
    ensures var next := if pc.PopFirst? then PopReadNext(pc.qb) else PopMoveHead(pc.qb);
      PopOk(Leave(q, id, pc.qb, next), id, next)
  {
  }

  lemma PopReturnKeepsInv(q: Queue, id: OpId, pc: Pc)
    requires Inv(q) && Linked(q) && id in q.ops && q.ops[id] == pc && (pc.PopFirst? || pc.PopSecond?)
    requires var ip := q.blocks[pc.qb].ops[id]; ip.PopGot? || ip.PopEmpty?
    ensures Inv(StepInside(q, id, pc))
  {
    var b := q.blocks[pc.qb];
    assert B.Inv(b) && OpOk(q, id);
    hide B.Inv, B.Grows, Inv, OpOk, Grows, OrderOk, BlocksOk, PushOk, PopOk;
    B.RetireKeepsInv(b, id);
    PopReturnOk(q, id, pc);
    var q' := StepInside(q, id, pc);
    InBlockGrows(q, id, pc.qb, B.Retire(b, id), q'.ops[id]);
    PopOpOk(q, q', id);
    InBlockKeepsInv(q, id, pc.qb, B.Retire(b, id), q'.ops[id]);
  }

  lemma PopStepOk(q: Queue, id: OpId, pc: Pc)
    requires (pc.PopFirst? || pc.PopSecond?) && PopOk(q, id, pc) && |q.blocks[pc.qb].cells| > 0
    requires pc.PopSecond? ==> q.blocks[pc.qb].closed
    requires var b := q.blocks[pc.qb]; B.Moves(b, B.Step(b, id), id)
    ensures PopOk(InBlock(q, id, pc.qb, B.Step(q.blocks[pc.qb], id), pc), id, pc)
  {
    hide B.Step;
  }

  lemma PopStepKeepsInv(q: Queue, id: OpId, pc: Pc)
    requires Inv(q) && Linked(q) && id in q.ops && q.ops[id] == pc && (pc.PopFirst? || pc.PopSecond?)
    ensures Inv(InBlock(q, id, pc.qb, B.Step(q.blocks[pc.qb], id), pc))
  {
    var b := q.blocks[pc.qb];
    assert B.Inv(b) && OpOk(q, id);
    assert pc.qb <= q.head;
    assert pc.PopSecond? ==> b.closed;
    hide B.Inv, B.Grows, B.Step, B.Moves, Inv, OpOk, Grows, OrderOk, BlocksOk, PushOk, PopOk;
    B.StepKeepsInv(b, id);
    B.StepGrows(b, id);
    PopStepOk(q, id, pc);
    InBlockGrows(q, id, pc.qb, B.Step(b, id), pc);
    PopOpOk(q, InBlock(q, id, pc.qb, B.Step(b, id), pc), id);
    InBlockKeepsInv(q, id, pc.qb, B.Step(b, id), pc);
  }

  // ---------- pushes ----------

  lemma PushOuterOk(q: Queue, id: OpId)
    requires Linked(q) && id in q.ops && PushOk(q, id, q.ops[id])
    requires q.ops[id].PushReadTail? || q.ops[id].PushRecheck? || q.ops[id].PushSkip? || q.ops[id].PushReadHead?
      || (q.ops[id].PushReadNext? && q.ops[id].qb + 1 < |q.blocks|)
      || (q.ops[id].PushLink? && q.ops[id].qb + 1 != |q.blocks| && q.ops[id].size > 0)
    ensures var q' := Step(q, id);
      && id in q'.ops && PushPc(q'.ops[id]) && PushOk(q', id, q'.ops[id]) && !q'.ops[id].PushDone?
      && KeepsBlock(q, q.ops[id], q'.ops[id]) && !HasTicket(q', id, q'.ops[id])
      && q' == q.(head := q.head, tail := q'.tail, ops := q.ops[id := q'.ops[id]])
      && q.tail <= q'.tail < |q.blocks|
  {
  }

  lemma PushOuterKeepsInv(q: Queue, id: OpId)
    requires Inv(q) && Linked(q) && id in q.ops
    requires q.ops[id].PushReadTail? || q.ops[id].PushRecheck? || q.ops[id].PushSkip? || q.ops[id].PushReadHead?
      || (q.ops[id].PushReadNext? && q.ops[id].qb + 1 < |q.blocks|)
      || (q.ops[id].PushLink? && q.ops[id].qb + 1 != |q.blocks| && q.ops[id].size > 0)
    ensures Inv(Step(q, id))
  {
    assert OpOk(q, id);
    assert q.began.Keys == q.ops.Keys;
    hide B.Inv, B.Drained, B.Grows, OrderOk, PushOk, OpOk, Grows, PopOk, KeepsBlock, HasTicket, Inv;
    PushOuterOk(q, id);
    var q' := Step(q, id);
    hide Step;
    OuterGrows(q, q', id);
    PushOpOk(q, q', id);
    OuterStep(q, q', id);
  }

  lemma PushMoveTailOk(q: Queue, id: OpId, v: nat, qb: nat)
    requires Linked(q) && id in q.ops && q.ops[id] == PushMoveTail(v, qb) && PushOk(q, id, q.ops[id])
    requires id in q.began && OrderOk(q, id, q.ops[id], q.began[id])
    ensures var q' := Step(q, id);
      && q'.ops == q.ops[id := PushDone(v, Pos(qb + 1, 0))] && PushOk(q', id, q'.ops[id])
      && q' == q.(head := q.head, tail := q'.tail, ops := q.ops[id := q'.ops[id]])
      && q.tail <= q'.tail < |q.blocks|
    ensures forall p :: p in q.began[id] ==> Before(p, Pos(qb + 1, 0))
  {
  }

  lemma PushMoveTailKeepsInv(q: Queue, id: OpId)
    requires Inv(q) && Linked(q) && id in q.ops && q.ops[id].PushMoveTail?
    ensures Inv(Step(q, id))
  {
    assert OpOk(q, id);
    assert q.began.Keys == q.ops.Keys;
    hide B.Inv, B.Drained, B.Grows, OpOk, Grows, PopOk, Inv, PushOk, OrderOk, Before;
    PushMoveTailOk(q, id, q.ops[id].v, q.ops[id].qb);
    var q' := Step(q, id);
    hide Step;
    OuterGrows(q, q', id);
    PushDoneOpOk(q, q', id);
    OuterStep(q, q', id);
  }

  lemma PushEnterKeepsInv(q: Queue, id: OpId, v: nat, qb: nat)
    requires Inv(q) && id in q.ops && q.ops[id] == PushReadNext(v, qb) && qb < |q.blocks|
    ensures Inv(Enter(q, id, qb, B.PushTake(v, 0), PushBlock(v, qb)))
  {
    var b := q.blocks[qb];
    assert id !in b.ops && B.Inv(b);
    assert OpOk(q, id);
    assert PushOk(q, id, q.ops[id]);
    var b' := B.Goto(b, id, B.PushTake(v, 0));
    var q' := InBlock(q, id, qb, b', PushBlock(v, qb));
    assert PushOk(q', id, PushBlock(v, qb)) && !HasTicket(q', id, PushBlock(v, qb));
    hide B.Inv, B.Grows, Inv, OpOk, Grows, OrderOk, BlocksOk, PushOk, HasTicket;
    B.StartKeepsInv(b, id, B.PushTake(v, 0));
    InBlockGrows(q, id, qb, b', PushBlock(v, qb));
    PushOpOk(q, q', id);
    InBlockKeepsInv(q, id, qb, b', PushBlock(v, qb));
  }

  lemma PushReturnOk(q: Queue, id: OpId, pc: Pc)
    requires id in q.ops && pc.PushBlock? && PushOk(q, id, pc) && B.Inv(q.blocks[pc.qb])
    requires var ip := q.blocks[pc.qb].ops[id]; ip.PushDone? || ip.PushFailed?
    ensures |q.blocks[pc.qb].cells| > 0
    ensures PushOk(StepInside(q, id, pc), id, StepInside(q, id, pc).ops[id])
  {
    B.StateFacts(q.blocks[pc.qb], id);
    hide B.Inv;
  }

  lemma PushReturnOpOk(q: Queue, id: OpId, pc: Pc, q': Queue)
    requires id in q.ops && id in q.began && q.ops[id] == pc && pc.PushBlock? && PushOk(q, id, pc)
    requires OrderOk(q, id, pc, q.began[id]) && B.Inv(q.blocks[pc.qb])
    requires var ip := q.blocks[pc.qb].ops[id]; ip.PushDone? || ip.PushFailed?
    requires |q.blocks[pc.qb].cells| > 0 && q' == StepInside(q, id, pc) && Grows(q, q', id)
    ensures OpOk(q', id)
  {
    PushReturnOk(q, id, pc);
    var b := q.blocks[pc.qb];
    if b.ops[id].PushDone? { PushedInOrder(q, id, pc); }
    hide B.Inv, B.Grows, Grows, PushOk, OpOk, OrderOk, Before;
    if b.ops[id].PushDone? { PushDoneOpOk(q, q', id); } else { PushOpOk(q, q', id); }
  }

  lemma PushedInOrder(q: Queue, id: OpId, pc: Pc)
    requires id in q.ops && id in q.began && pc.PushBlock? && pc.qb < |q.blocks| && id in q.blocks[pc.qb].ops
    requires OrderOk(q, id, pc, q.began[id]) && q.blocks[pc.qb].ops[id].PushDone? && |q.blocks[pc.qb].cells| > 0
    ensures StepInside(q, id, pc).ops[id].PushDone?
    ensures forall p :: p in q.began[id] ==> Before(p, StepInside(q, id, pc).ops[id].pos)
  {
    assert HasTicket(q, id, pc);
  }

  lemma PushLeaveKeepsInv(q: Queue, id: OpId, pc: Pc, pc': Pc)
    requires Inv(q) && id in q.ops && q.ops[id] == pc && pc.PushBlock? && pc.qb < |q.blocks| && !Inside(pc')
    requires id in q.blocks[pc.qb].ops && B.PushPc(q.blocks[pc.qb].ops[id])
    requires Grows(q, Leave(q, id, pc.qb, pc'), id) ==> OpOk(Leave(q, id, pc.qb, pc'), id)
    ensures Inv(Leave(q, id, pc.qb, pc'))
  {
    var b := q.blocks[pc.qb];
    assert B.Inv(b) && q.began.Keys == q.ops.Keys;
    var b' := B.Retire(b, id);
    hide B.Inv, B.Grows, Inv, OpOk, Grows;
    B.RetireKeepsInv(b, id);
    InBlockGrows(q, id, pc.qb, b', pc');
    InBlockKeepsInv(q, id, pc.qb, b', pc');
  }

  lemma PushReturnKeepsInv(q: Queue, id: OpId, pc: Pc)
    requires Inv(q) && Linked(q) && id in q.ops && q.ops[id] == pc && pc.PushBlock?
    requires var ip := q.blocks[pc.qb].ops[id]; ip.PushDone? || ip.PushFailed?
    ensures Inv(StepInside(q, id, pc))
  {
    hide B.Inv, Inv, OpOk, Grows, PushOk, PopOk, OrderOk, Leave, StepInside;
    BlockInv(q, pc.qb);
    OpIsOk(q, id);
    LeaveShape(q, id, pc);
    var q' := StepInside(q, id, pc);
    if Grows(q, q', id) {
      PushReturnOpOk(q, id, pc, q');
    }
    PushLeaveKeepsInv(q, id, pc, q'.ops[id]);
  }

  lemma OpIsOk(q: Queue, id: OpId)
    requires Inv(q) && id in q.ops
    ensures id in q.began
    ensures PopOk(q, id, q.ops[id]) && PushOk(q, id, q.ops[id]) && OrderOk(q, id, q.ops[id], q.began[id])
  {
    hide PopOk, PushOk, OrderOk, BlocksOk;
    assert OpOk(q, id);
  }

  lemma PushStepOk(q: Queue, id: OpId, pc: Pc)
    requires id in q.ops && pc.PushBlock? && PushOk(q, id, pc) && |q.blocks[pc.qb].cells| > 0
    requires var b := q.blocks[pc.qb]; B.Moves(b, B.Step(b, id), id)
    ensures PushOk(InBlock(q, id, pc.qb, B.Step(q.blocks[pc.qb], id), pc), id, pc)
  {
    hide B.Step;
  }

  /** A ticket taken now is past every ticket a finished push of this block holds. */
  lemma TicketAfterBegan(q: Queue, id: OpId, pc: Pc)
    requires Linked(q) && id in q.ops && id in q.began && q.ops[id] == pc && pc.PushBlock?
    requires B.Inv(q.blocks[pc.qb]) && OrderOk(q, id, pc, q.began[id])
    requires var b := q.blocks[pc.qb]; B.Moves(b, B.Step(b, id), id)
    requires HasTicket(InBlock(q, id, pc.qb, B.Step(q.blocks[pc.qb], id), pc), id, pc)
    ensures forall p :: p in q.began[id] && p.blk == pc.qb ==> p.t < B.Step(q.blocks[pc.qb], id).ops[id].t
  {
    B.HistoryFacts(q.blocks[pc.qb]);
    hide B.Inv, B.Step;
    forall p | p in q.began[id] && p.blk == pc.qb ensures p.t < B.Step(q.blocks[pc.qb], id).ops[id].t {
      assert IsPushed(q, p);
    }
  }

  lemma PushStepKeepsInv(q: Queue, id: OpId, pc: Pc)
    requires Inv(q) && Linked(q) && id in q.ops && q.ops[id] == pc && pc.PushBlock?
    ensures Inv(InBlock(q, id, pc.qb, B.Step(q.blocks[pc.qb], id), pc))
  {
    var b := q.blocks[pc.qb];
    assert B.Inv(b) && OpOk(q, id);
    assert B.PushPc(b.ops[id]);
    B.StepGrows(b, id);
    assert B.Step(b, id).head == b.head;
    hide B.Inv, B.Grows, B.Step, B.Moves, Inv, OpOk, Grows, OrderOk, BlocksOk, PushOk, PopOk, HasTicket;
    B.StepKeepsInv(b, id);
    PushStepOk(q, id, pc);
    var q' := InBlock(q, id, pc.qb, B.Step(b, id), pc);
    InBlockGrows(q, id, pc.qb, B.Step(b, id), pc);
    if HasTicket(q', id, pc) {
      TicketAfterBegan(q, id, pc);
      PushTicketOpOk(q, q', id);
    } else {
      PushOpOk(q, q', id);
    }
    InBlockKeepsInv(q, id, pc.qb, B.Step(b, id), pc);
  }

  lemma LinkBlocks(q: Queue, id: OpId, v: nat, qb: nat, size: nat)
    requires BlocksOk(q) && id in q.ops && q.ops[id] == PushLink(v, qb, size) && size > 0
    requires qb + 1 == |q.blocks| && q.blocks[qb].closed
    ensures BlocksOk(StepLink(q, id, v, qb, size))
  {
    var q' := StepLink(q, id, v, qb, size);
    B.FreshInv(size, id, v);
    hide B.Inv, B.Drained;
    forall i, j | 0 <= i < |q'.blocks| && j in q'.blocks[i].ops
      ensures j in q'.ops && Inside(q'.ops[j]) && q'.ops[j].qb == i
    {
      assert i < |q.blocks| && j in q.blocks[i].ops;
    }
  }

  lemma LinkGrows(q: Queue, id: OpId, v: nat, qb: nat, size: nat)
    requires id in q.ops && q.ops.Keys == q.began.Keys && size > 0
    ensures Grows(q, StepLink(q, id, v, qb, size), id)
  {
    var q' := StepLink(q, id, v, qb, size);
    hide B.Fresh;
    forall i | 0 <= i < |q.blocks| ensures B.Grows(q.blocks[i], q'.blocks[i], id) {
      BlockGrowsItself(q.blocks[i], id);
    }
  }

  lemma LinkKeepsInv(q: Queue, id: OpId, v: nat, qb: nat, size: nat)
    requires Inv(q) && Linked(q) && id in q.ops && q.ops[id] == PushLink(v, qb, size) && size > 0
    requires qb + 1 == |q.blocks|
    ensures Inv(StepLink(q, id, v, qb, size))
  {
    var q' := StepLink(q, id, v, qb, size);
    assert OpOk(q, id);
    assert PushOk(q, id, q.ops[id]);
    assert PushOk(q', id, q'.ops[id]);
    hide B.Inv, B.Grows, BlocksOk, Grows, OrderOk, PushOk, PopOk, OpOk, B.Fresh;
    LinkBlocks(q, id, v, qb, size);
    LinkGrows(q, id, v, qb, size);
    PushOpOk(q, q', id);
    OpsStayOk(q, q', id);
  }

  lemma PopReturnOrStep(q: Queue, id: OpId, pc: Pc)
    requires Inv(q) && Linked(q) && id in q.ops && q.ops[id] == pc && (pc.PopFirst? || pc.PopSecond?)
    ensures Inv(StepInside(q, id, pc))
  {
    assert OpOk(q, id);
    var ip := q.blocks[pc.qb].ops[id];
    assert !B.PushPc(ip);
    assert ip.PopGot? || ip.PopEmpty? || StepInside(q, id, pc) == InBlock(q, id, pc.qb, B.Step(q.blocks[pc.qb], id), pc);
    hide Inv, OpOk, B.Inv, B.Step, PushOk, PopOk, OrderOk, InBlock, Leave, StepInside;
    if ip.PopGot? || ip.PopEmpty? { PopReturnKeepsInv(q, id, pc); } else { PopStepKeepsInv(q, id, pc); }
  }

  lemma PushReturnOrStep(q: Queue, id: OpId, pc: Pc)
    requires Inv(q) && Linked(q) && id in q.ops && q.ops[id] == pc && pc.PushBlock?
    ensures Inv(StepInside(q, id, pc))
  {
    assert OpOk(q, id);
    var ip := q.blocks[pc.qb].ops[id];
    assert B.PushPc(ip);
    assert ip.PushDone? || ip.PushFailed? || StepInside(q, id, pc) == InBlock(q, id, pc.qb, B.Step(q.blocks[pc.qb], id), pc);
    hide Inv, OpOk, B.Inv, B.Step, PushOk, PopOk, OrderOk, InBlock, Leave, StepInside;
    if ip.PushDone? || ip.PushFailed? { PushReturnKeepsInv(q, id, pc); } else { PushStepKeepsInv(q, id, pc); }
  }

  lemma StepKeepsInv(q: Queue, id: OpId)
    requires Inv(q) && Linked(q) && id in q.ops && (q.ops[id].PushLink? ==> q.ops[id].size > 0)
    ensures Inv(Step(q, id))
  {
    var pc := q.ops[id];
    assert OpOk(q, id);
    assert !PushPc(pc) && HasBlock(pc) ==> pc.qb <= q.head;
    hide Inv, OpOk, B.Inv, B.Step, PopOk, PushOk, OrderOk;
    match pc
    case PopRecheck(qb) => if q.head != qb { PopOuterKeepsInv(q, id); } else { PopEnterKeepsInv(q, id, qb, PopFirst(qb)); }
    case PopReadNext(qb) =>
      if qb + 1 == |q.blocks| { PopOuterKeepsInv(q, id); } else { PopEnterKeepsInv(q, id, qb, PopSecond(qb)); }
    case PopReadHead | PopMoveHead(_) => PopOuterKeepsInv(q, id);
    case PushReadTail(_) | PushRecheck(_, _) | PushSkip(_, _) | PushReadHead(_, _) => PushOuterKeepsInv(q, id);
    case PushReadNext(v, qb) =>
      if qb + 1 < |q.blocks| { PushOuterKeepsInv(q, id); } else { PushEnterKeepsInv(q, id, v, qb); }
    case PushLink(v, qb, size) =>
      if qb + 1 == |q.blocks| { LinkKeepsInv(q, id, v, qb, size); } else { PushOuterKeepsInv(q, id); }
    case PushMoveTail(_, _) => PushMoveTailKeepsInv(q, id);
    case PopDone(_, _) | PopNone | PushDone(_, _) =>
    case PushBlock(_, _) => PushReturnOrStep(q, id, pc);
    case _ => PopReturnOrStep(q, id, pc);
  }

  // ---------- who holds which place ----------

  /** The push of operation id has stored its value at p. */
  ghost predicate Placed(q: Queue, id: OpId, p: Pos) {
    && id in q.ops
    && (q.ops[id].PushDone? ==> q.ops[id].pos == p)
    && (q.ops[id].PushMoveTail? ==> p == Pos(q.ops[id].qb + 1, 0))
    && (q.ops[id].PushBlock? ==>
          && p.blk == q.ops[id].qb < |q.blocks| && id in q.blocks[p.blk].ops
          && q.blocks[p.blk].ops[id].PushDone? && q.blocks[p.blk].ops[id].t == p.t)
    && (q.ops[id].PushDone? || q.ops[id].PushMoveTail? || q.ops[id].PushBlock?)
  }

  /** The pop of operation id has taken the value at p. */
  ghost predicate Took(q: Queue, id: OpId, p: Pos) {
    && id in q.ops
    && (q.ops[id].PopDone? ==> q.ops[id].pos == p)
    && (q.ops[id].PopFirst? || q.ops[id].PopSecond? ==>
          && p.blk == q.ops[id].qb < |q.blocks| && id in q.blocks[p.blk].ops
          && q.blocks[p.blk].ops[id].PopGot? && q.blocks[p.blk].ops[id].h == p.t)
    && (q.ops[id].PopDone? || q.ops[id].PopFirst? || q.ops[id].PopSecond?)
  }

  ghost predicate Accounted(q: Queue) {
    && (forall p :: IsPushed(q, p) ==> Placed(q, q.blocks[p.blk].pushed[p.t].owner, p))
    && (forall p :: IsPopped(q, p) ==> Took(q, q.blocks[p.blk].popped[p.t], p))
  }

  lemma AccountedStays(q: Queue, q': Queue, id: OpId)
    requires Accounted(q) && Grows(q, q', id)
    requires forall p :: IsPushed(q', p) && !IsPushed(q, p) ==>
      q'.blocks[p.blk].pushed[p.t].owner == id && Placed(q', id, p)
    requires forall p :: IsPopped(q', p) && !IsPopped(q, p) ==> q'.blocks[p.blk].popped[p.t] == id && Took(q', id, p)
    requires forall p :: Placed(q, id, p) ==> Placed(q', id, p)
    requires forall p :: Took(q, id, p) ==> Took(q', id, p)
    ensures Accounted(q')
  {
    forall p | IsPushed(q', p) ensures Placed(q', q'.blocks[p.blk].pushed[p.t].owner, p) {
      if IsPushed(q, p) {
        assert B.Grows(q.blocks[p.blk], q'.blocks[p.blk], id);
        assert Placed(q, q.blocks[p.blk].pushed[p.t].owner, p);
      }
    }
    forall p | IsPopped(q', p) ensures Took(q', q'.blocks[p.blk].popped[p.t], p) {
      if IsPopped(q, p) {
        assert B.Grows(q.blocks[p.blk], q'.blocks[p.blk], id);
        assert Took(q, q.blocks[p.blk].popped[p.t], p);
      }
    }
  }

  /** The steps outside the blocks: only the finished ones stand for a place, and they stand for the same place after. */
  lemma OuterShape(q: Queue, id: OpId)
    requires Linked(q) && id in q.ops && !Inside(q.ops[id]) && !q.ops[id].PushLink?
    requires !(q.ops[id].PopRecheck? || q.ops[id].PopReadNext? || q.ops[id].PushReadNext?)
    ensures var q' := Step(q, id);
      && id in q'.ops && q' == q.(head := q'.head, tail := q'.tail, ops := q.ops[id := q'.ops[id]])
      && q.head <= q'.head && q.tail <= q'.tail
      && (q.ops[id].PushMoveTail? ==> q'.ops[id].PushDone? && q'.ops[id].pos == Pos(q.ops[id].qb + 1, 0))
      && (q.ops[id].PushDone? || q.ops[id].PopDone? ==> q'.ops[id] == q.ops[id])
      && StaysKind(q, q', id)
  {
  }

  lemma OuterAccounted(q: Queue, id: OpId)
    requires Inv(q) && Linked(q) && id in q.ops && Accounted(q)
    requires !Inside(q.ops[id]) && !q.ops[id].PushLink?
    requires !(q.ops[id].PopRecheck? || q.ops[id].PopReadNext? || q.ops[id].PushReadNext?)
    ensures Accounted(Step(q, id))
  {
    hide B.Grows, B.Inv, Inv, Accounted, Grows, Linked, Step, OpOk, Ready;
    LinkedReady(q, id);
    var q' := Step(q, id);
    OuterShape(q, id);
    InvKeys(q);
    OuterGrows(q, q', id);
    AccountedStays(q, q', id);
  }

  lemma LinkedReady(q: Queue, id: OpId)
    requires Linked(q) && id in q.ops && (q.ops[id].PushLink? ==> q.ops[id].size > 0)
    ensures Ready(q, id)
  {
  }

  lemma InvKeys(q: Queue)
    requires Inv(q)
    ensures q.ops.Keys == q.began.Keys
  {
    hide BlocksOk, OpOk;
  }

  lemma EnterAccounted(q: Queue, id: OpId, i: nat, inner: B.Pc, pc: Pc)
    requires id in q.ops && q.ops.Keys == q.began.Keys && i < |q.blocks| && Accounted(q)
    requires !Inside(q.ops[id]) && HasBlock(q.ops[id]) && !q.ops[id].PushMoveTail?
    requires B.Grows(q.blocks[i], B.Goto(q.blocks[i], id, inner), id)
    ensures Accounted(Enter(q, id, i, inner, pc))
  {
    var b := B.Goto(q.blocks[i], id, inner);
    var q' := InBlock(q, id, i, b, pc);
    InBlockGrows(q, id, i, b, pc);
    hide B.Grows, Accounted, Grows;
    AccountedStays(q, q', id);
  }

  lemma LinkAccounted(q: Queue, id: OpId, v: nat, qb: nat, size: nat)
    requires id in q.ops && q.ops.Keys == q.began.Keys && q.ops[id] == PushLink(v, qb, size) && size > 0 && Accounted(q)
    ensures Accounted(StepLink(q, id, v, qb, size))
  {
    LinkGrows(q, id, v, qb, size);
    hide B.Grows, Accounted, Grows;
    AccountedStays(q, StepLink(q, id, v, qb, size), id);
  }

  lemma ReturnAccounted(q: Queue, id: OpId, pc: Pc, pc': Pc)
    requires id in q.ops && q.ops.Keys == q.began.Keys && q.ops[id] == pc && Inside(pc) && pc.qb < |q.blocks|
    requires Accounted(q) && id in q.blocks[pc.qb].ops
    requires B.Grows(q.blocks[pc.qb], B.Retire(q.blocks[pc.qb], id), id)
    requires var ip := q.blocks[pc.qb].ops[id];
      && (ip.PushDone? && pc.PushBlock? ==> pc'.PushDone? && pc'.pos == Pos(pc.qb, ip.t))
      && (ip.PopGot? && !pc.PushBlock? ==> pc'.PopDone? && pc'.pos == Pos(pc.qb, ip.h))
    ensures Accounted(Leave(q, id, pc.qb, pc'))
  {
    var b := B.Retire(q.blocks[pc.qb], id);
    var q' := InBlock(q, id, pc.qb, b, pc');
    InBlockGrows(q, id, pc.qb, b, pc');
    hide B.Grows, Accounted, Grows;
    AccountedStays(q, q', id);
  }

  lemma InnerAccounted(q: Queue, id: OpId, pc: Pc)
    requires id in q.ops && q.ops.Keys == q.began.Keys && q.ops[id] == pc && Inside(pc) && pc.qb < |q.blocks|
    requires Accounted(q) && id in q.blocks[pc.qb].ops && |q.blocks[pc.qb].cells| > 0
    requires B.PushPc(q.blocks[pc.qb].ops[id]) <==> pc.PushBlock?
    requires var ip := q.blocks[pc.qb].ops[id]; !ip.PushDone? && !ip.PopGot?
    requires var b := q.blocks[pc.qb]; B.Grows(b, B.Step(b, id), id) && B.Moves(b, B.Step(b, id), id)
    ensures Accounted(InBlock(q, id, pc.qb, B.Step(q.blocks[pc.qb], id), pc))
  {
    hide B.Grows, B.Moves, Accounted, B.Step;
    BlockAccounted(q, id, pc, B.Step(q.blocks[pc.qb], id));
  }

  lemma BlockAccounted(q: Queue, id: OpId, pc: Pc, b': B.Block)
    requires id in q.ops && q.ops.Keys == q.began.Keys && q.ops[id] == pc && Inside(pc) && pc.qb < |q.blocks|
    requires Accounted(q) && id in q.blocks[pc.qb].ops
    requires B.PushPc(q.blocks[pc.qb].ops[id]) <==> pc.PushBlock?
    requires var ip := q.blocks[pc.qb].ops[id]; !ip.PushDone? && !ip.PopGot?
    requires var b := q.blocks[pc.qb]; B.Grows(b, b', id) && B.Moves(b, b', id)
    ensures Accounted(InBlock(q, id, pc.qb, b', pc))
  {
    var q' := InBlock(q, id, pc.qb, b', pc);
    InBlockGrows(q, id, pc.qb, b', pc);
    hide Accounted, Grows;
    AccountedStays(q, q', id);
  }

  lemma LeaveShape(q: Queue, id: OpId, pc: Pc)
    requires Inside(pc) && pc.qb < |q.blocks| && id in q.blocks[pc.qb].ops && |q.blocks[pc.qb].cells| > 0
    requires var ip := q.blocks[pc.qb].ops[id]; ip.PopGot? || ip.PopEmpty? || ip.PushDone? || ip.PushFailed?
    ensures var q' := StepInside(q, id, pc);
      var ip := q.blocks[pc.qb].ops[id];
      && id in q'.ops && !Inside(q'.ops[id]) && q' == Leave(q, id, pc.qb, q'.ops[id])
      && (ip.PushDone? ==> q'.ops[id].PushDone? && q'.ops[id].pos == Pos(pc.qb, ip.t))
      && (ip.PopGot? ==> q'.ops[id].PopDone? && q'.ops[id].pos == Pos(pc.qb, ip.h))
  {
  }

  lemma LeaveAccounted(q: Queue, id: OpId, pc: Pc)
    requires Inv(q) && Linked(q) && id in q.ops && q.ops[id] == pc && Inside(pc) && Accounted(q)
    requires var ip := q.blocks[pc.qb].ops[id]; ip.PopGot? || ip.PopEmpty? || ip.PushDone? || ip.PushFailed?
    ensures Accounted(StepInside(q, id, pc))
  {
    hide B.Inv, Inv, Accounted, StepInside, B.Grows, Leave;
    InvKeys(q);
    BlockInv(q, pc.qb);
    LeaveShape(q, id, pc);
    B.RetireKeepsInv(q.blocks[pc.qb], id);
    ReturnAccounted(q, id, pc, StepInside(q, id, pc).ops[id]);
  }

  lemma BlockInv(q: Queue, i: nat)
    requires Inv(q) && i < |q.blocks|
    ensures B.Inv(q.blocks[i])
  {
    hide OpOk, B.Inv;
  }

  lemma InsideAccounted(q: Queue, id: OpId, pc: Pc)
    requires Inv(q) && Linked(q) && id in q.ops && q.ops[id] == pc && Inside(pc) && Accounted(q)
    ensures Accounted(StepInside(q, id, pc))
  {
    var b := q.blocks[pc.qb];
    var ip := b.ops[id];
    assert B.Inv(b) && q.ops.Keys == q.began.Keys;
    assert B.PushPc(ip) <==> pc.PushBlock? by { assert OpOk(q, id); }
    assert ip.PopGot? || ip.PopEmpty? || ip.PushDone? || ip.PushFailed?
      || StepInside(q, id, pc) == InBlock(q, id, pc.qb, B.Step(b, id), pc);
    hide B.Inv, Inv, Accounted, StepInside, B.Grows, B.Moves, InBlock, B.Step;
    if ip.PopGot? || ip.PopEmpty? || ip.PushDone? || ip.PushFailed? {
      LeaveAccounted(q, id, pc);
    } else {
      B.StepGrows(b, id);
      InnerAccounted(q, id, pc);
    }
  }

  lemma StepKeepsAccounted(q: Queue, id: OpId)
    requires Inv(q) && Linked(q) && id in q.ops && Accounted(q) && (q.ops[id].PushLink? ==> q.ops[id].size > 0)
    ensures Accounted(Step(q, id))
  {
    var pc := q.ops[id];
    assert OpOk(q, id) && q.ops.Keys == q.began.Keys;
    assert PushPc(pc) ==> pc.v != 0;
    if Inside(pc) {
      hide Accounted, Inv, OpOk, StepInside;
      InsideAccounted(q, id, pc);
    } else if pc.PushLink? {
      hide Accounted, Inv, OpOk, StepLink;
      LinkAccounted(q, id, pc.v, pc.qb, pc.size);
    } else if pc.PopRecheck? || pc.PopReadNext? || pc.PushReadNext? {
      EnterStepAccounted(q, id, pc);
    } else {
      hide Accounted, Inv, OpOk, Step;
      OuterAccounted(q, id);
    }
  }

  lemma PlainAccounted(q: Queue, id: OpId, pc': Pc)
    requires id in q.ops && q.ops.Keys == q.began.Keys && Accounted(q)
    requires !Inside(q.ops[id]) && HasBlock(q.ops[id]) && !q.ops[id].PushMoveTail?
    ensures Accounted(To(q, id, pc'))
  {
    OuterGrows(q, To(q, id, pc'), id);
    hide Accounted, Grows;
    AccountedStays(q, To(q, id, pc'), id);
  }

  lemma EnterStepAccounted(q: Queue, id: OpId, pc: Pc)
    requires Inv(q) && Linked(q) && id in q.ops && Accounted(q) && q.ops[id] == pc
    requires pc.PopRecheck? || pc.PopReadNext? || pc.PushReadNext?
    ensures Accounted(Step(q, id))
  {
    assert OpOk(q, id) && q.ops.Keys == q.began.Keys;
    var b := q.blocks[pc.qb];
    assert B.Inv(b) && id !in b.ops;
    assert PushPc(pc) ==> pc.v != 0;
    hide Accounted, Inv, OpOk, B.Inv, B.Grows, Enter, To;
    match pc
    case PopRecheck(qb) =>
      PlainAccounted(q, id, PopReadHead);
      B.StartKeepsInv(b, id, B.PopTake);
      EnterAccounted(q, id, qb, B.PopTake, PopFirst(qb));
    case PopReadNext(qb) =>
      PlainAccounted(q, id, PopNone);
      B.StartKeepsInv(b, id, B.PopTake);
      EnterAccounted(q, id, qb, B.PopTake, PopSecond(qb));
    case PushReadNext(v, qb) =>
      PlainAccounted(q, id, PushSkip(v, qb));
      B.StartKeepsInv(b, id, B.PushTake(v, 0));
      EnterAccounted(q, id, qb, B.PushTake(v, 0), PushBlock(v, qb));
  }

  // ---------- a step seen from outside ----------

  /** What a step does to the operation itself: it stays a push or a pop, and ends as the block says. */
  ghost predicate StaysKind(q: Queue, q': Queue, id: OpId)
    requires id in q.ops
  {
    && q'.ops.Keys == q.ops.Keys
    && (PushPc(q.ops[id]) <==> PushPc(q'.ops[id]))
  }

  lemma OuterStepGrows(q: Queue, id: OpId)
    requires Linked(q) && id in q.ops && q.ops.Keys == q.began.Keys && !Inside(q.ops[id])
    requires !(q.ops[id].PopRecheck? || q.ops[id].PopReadNext? || q.ops[id].PushReadNext? || q.ops[id].PushLink?)
    ensures Grows(q, Step(q, id), id) && StaysKind(q, Step(q, id), id)
  {
    hide B.Grows, Grows, Step, Linked, Ready;
    LinkedReady(q, id);
    OuterShape(q, id);
    OuterGrows(q, Step(q, id), id);
  }

  lemma EnterGrows(q: Queue, id: OpId, i: nat, inner: B.Pc, pc: Pc)
    requires id in q.ops && q.ops.Keys == q.began.Keys && i < |q.blocks| && (PushPc(q.ops[id]) <==> PushPc(pc))
    requires B.Inv(q.blocks[i]) && id !in q.blocks[i].ops && (inner.PopTake? || (inner.PushTake? && inner.v != 0))
    ensures Grows(q, Enter(q, id, i, inner, pc), id) && StaysKind(q, Enter(q, id, i, inner, pc), id)
  {
    hide B.Inv, B.Grows, Grows;
    B.StartKeepsInv(q.blocks[i], id, inner);
    InBlockGrows(q, id, i, B.Goto(q.blocks[i], id, inner), pc);
  }

  lemma PlainGrows(q: Queue, id: OpId, pc: Pc)
    requires id in q.ops && q.ops.Keys == q.began.Keys && (PushPc(q.ops[id]) <==> PushPc(pc))
    ensures Grows(q, To(q, id, pc), id) && StaysKind(q, To(q, id, pc), id)
  {
    hide B.Grows, Grows;
    OuterGrows(q, To(q, id, pc), id);
  }

  lemma NotInside(q: Queue, id: OpId)
    requires Inv(q) && id in q.ops && !Inside(q.ops[id]) && HasBlock(q.ops[id])
    ensures q.ops.Keys == q.began.Keys && (PushPc(q.ops[id]) ==> q.ops[id].v != 0)
    ensures q.ops[id].qb < |q.blocks| && B.Inv(q.blocks[q.ops[id].qb]) && id !in q.blocks[q.ops[id].qb].ops
  {
    hide B.Inv, OrderOk;
    assert OpOk(q, id);
  }

  lemma EnterStepGrows(q: Queue, id: OpId, pc: Pc)
    requires Inv(q) && Linked(q) && id in q.ops && q.ops[id] == pc
    requires pc.PopRecheck? || pc.PopReadNext? || pc.PushReadNext?
    ensures Grows(q, Step(q, id), id) && StaysKind(q, Step(q, id), id)
  {
    hide Inv, B.Inv, B.Grows, Grows, Enter, To, StaysKind;
    NotInside(q, id);
    match pc
    case PopRecheck(qb) =>
      PlainGrows(q, id, PopReadHead);
      EnterGrows(q, id, qb, B.PopTake, PopFirst(qb));
    case PopReadNext(qb) =>
      PlainGrows(q, id, PopNone);
      EnterGrows(q, id, qb, B.PopTake, PopSecond(qb));
    case PushReadNext(v, qb) =>
      PlainGrows(q, id, PushSkip(v, qb));
      EnterGrows(q, id, qb, B.PushTake(v, 0), PushBlock(v, qb));
  }

  lemma IsInside(q: Queue, id: OpId)
    requires Inv(q) && id in q.ops && Inside(q.ops[id])
    ensures q.ops.Keys == q.began.Keys && q.ops[id].qb < |q.blocks| && B.Inv(q.blocks[q.ops[id].qb])
    ensures id in q.blocks[q.ops[id].qb].ops
    ensures PushPc(q.ops[id]) <==> B.PushPc(q.blocks[q.ops[id].qb].ops[id])
  {
    hide B.Inv, OrderOk;
    assert OpOk(q, id);
  }

  lemma InsideCases(q: Queue, id: OpId, pc: Pc)
    requires Inside(pc) && pc.qb < |q.blocks| && id in q.blocks[pc.qb].ops && |q.blocks[pc.qb].cells| > 0
    requires PushPc(pc) <==> B.PushPc(q.blocks[pc.qb].ops[id])
    ensures var q' := StepInside(q, id, pc); id in q'.ops && (PushPc(q'.ops[id]) <==> PushPc(pc))
    ensures var q' := StepInside(q, id, pc); var ip := q.blocks[pc.qb].ops[id];
      if ip.PopGot? || ip.PopEmpty? || ip.PushDone? || ip.PushFailed? then q' == Leave(q, id, pc.qb, q'.ops[id])
      else q' == InBlock(q, id, pc.qb, B.Step(q.blocks[pc.qb], id), pc)
  {
    hide B.Step;
  }

  lemma InsideGrows(q: Queue, id: OpId, pc: Pc)
    requires Inv(q) && Linked(q) && id in q.ops && q.ops[id] == pc && Inside(pc)
    ensures Grows(q, StepInside(q, id, pc), id) && StaysKind(q, StepInside(q, id, pc), id)
  {
    hide Inv, B.Inv, B.Grows, Grows, StepInside, B.Step, B.Moves;
    IsInside(q, id);
    InsideCases(q, id, pc);
    var b := q.blocks[pc.qb];
    var ip := b.ops[id];
    var q' := StepInside(q, id, pc);
    if ip.PopGot? || ip.PopEmpty? || ip.PushDone? || ip.PushFailed? {
      B.RetireKeepsInv(b, id);
      InBlockGrows(q, id, pc.qb, B.Retire(b, id), q'.ops[id]);
    } else {
      B.StepGrows(b, id);
      InBlockGrows(q, id, pc.qb, B.Step(b, id), pc);
    }
  }

  lemma StepGrows(q: Queue, id: OpId)
    requires Inv(q) && Linked(q) && id in q.ops && (q.ops[id].PushLink? ==> q.ops[id].size > 0)
    ensures Grows(q, Step(q, id), id) && StaysKind(q, Step(q, id), id)
  {
    hide B.Inv, B.Grows, Grows, StepInside, OpOk, BlocksOk, B.Fresh;
    var pc := q.ops[id];
    if Inside(pc) {
      InsideGrows(q, id, pc);
    } else if pc.PushLink? {
      LinkGrows(q, id, pc.v, pc.qb, pc.size);
    } else if pc.PopRecheck? || pc.PopReadNext? || pc.PushReadNext? {
      EnterStepGrows(q, id, pc);
    } else {
      OuterStepGrows(q, id);
    }
  }

  // ---------- runs ----------

  datatype Action = StartPop(id: OpId) | StartPush(id: OpId, v: nat) | Advance(id: OpId)

  /** The places of the pushes that have returned. */
  function Finished(q: Queue): set<Pos> {
    set id | id in q.ops && q.ops[id].PushDone? :: q.ops[id].pos
  }

  function Begin(q: Queue, id: OpId, pc: Pc): Queue {
    q.(ops := q.ops[id := pc], began := q.began[id := if PushPc(pc) then Finished(q) else {}])
  }

  ghost predicate Good(q: Queue) {
    Inv(q) && Linked(q) && Accounted(q) && (forall id :: id in q.ops && q.ops[id].PushLink? ==> q.ops[id].size > 0)
  }

  /** What one scheduled action does; an action that is not possible changes nothing. */
  ghost function Act(q: Queue, a: Action): Queue {
    match a
    case StartPop(id) => if id in q.ops then q else Begin(q, id, PopReadHead)
    case StartPush(id, v) => if id in q.ops || v == 0 then q else Begin(q, id, PushReadTail(v))
    case Advance(id) => if Ready(q, id) then Step(q, id) else q
  }

  lemma BeginKeepsOthers(q: Queue, id: OpId, pc: Pc, j: OpId)
    requires Inv(q) && id !in q.ops && j in q.ops
    ensures OpOk(Begin(q, id, pc), j)
  {
    assert OpOk(q, j);
    hide B.Inv, B.Drained;
  }

  lemma BeginKeepsAccounted(q: Queue, id: OpId, pc: Pc)
    requires Accounted(q) && id !in q.ops
    ensures Accounted(Begin(q, id, pc))
  {
    var q' := Begin(q, id, pc);
    forall p | IsPushed(q', p) ensures Placed(q', q'.blocks[p.blk].pushed[p.t].owner, p) {
      assert IsPushed(q, p);
    }
    forall p | IsPopped(q', p) ensures Took(q', q'.blocks[p.blk].popped[p.t], p) {
      assert IsPopped(q, p);
    }
  }

  lemma BeginKeepsGood(q: Queue, id: OpId, pc: Pc)
    requires Good(q) && id !in q.ops && (pc == PopReadHead || (pc.PushReadTail? && pc.v != 0))
    ensures Good(Begin(q, id, pc))
  {
    hide B.Inv, B.Drained, OpOk, Accounted;
    var q' := Begin(q, id, pc);
    assert BlocksOk(q');
    forall j | j in q'.ops ensures OpOk(q', j) {
      if j == id { BeginOpOk(q, id, pc); } else { BeginKeepsOthers(q, id, pc, j); }
    }
    BeginKeepsAccounted(q, id, pc);
    assert Inv(q');
    hide Inv;
    InvLinked(q');
  }

  lemma BeginOpOk(q: Queue, id: OpId, pc: Pc)
    requires Inv(q) && id !in q.ops && (pc == PopReadHead || (pc.PushReadTail? && pc.v != 0))
    ensures OpOk(Begin(q, id, pc), id)
  {
    hide B.Inv, B.Drained;
    var q' := Begin(q, id, pc);
    forall p | p in q'.began[id] ensures IsPushed(q', p) && p.blk <= q'.tail {
      var j :| j in q.ops && q.ops[j].PushDone? && q.ops[j].pos == p;
      assert OpOk(q, j);
    }
  }

  lemma ActKeepsGood(q: Queue, a: Action)
    requires Good(q)
    ensures Good(Act(q, a))
  {
    match a
    case StartPop(id) => if id !in q.ops { BeginKeepsGood(q, id, PopReadHead); }
    case StartPush(id, v) => if id !in q.ops && v != 0 { BeginKeepsGood(q, id, PushReadTail(v)); }
    case Advance(id) =>
      if id in q.ops {
        hide Inv, Linked, Accounted, Step;
        StepKeepsInv(q, id);
        StepKeepsAccounted(q, id);
        InvLinked(Step(q, id));
      }
  }

  lemma EmptyGood()
    ensures Good(Empty())
  {
    B.FreshInv(SMALL_BLOCK, 0, 0);
    hide B.Inv;
    assert Inv(Empty());
    InvLinked(Empty());
  }

  /** The queue after a run: any interleaving of any number of pushes and pops, from an empty queue. */
  ghost function Run(acts: seq<Action>): Queue {
    if acts == [] then Empty() else Act(Run(acts[..|acts| - 1]), acts[|acts| - 1])
  }

  lemma {:induction false} RunKeepsGood(acts: seq<Action>)
    ensures Good(Run(acts))
  {
    hide Good, Act, Empty;
    if acts == [] {
      EmptyGood();
    } else {
      RunKeepsGood(acts[..|acts| - 1]);
      ActKeepsGood(Run(acts[..|acts| - 1]), acts[|acts| - 1]);
    }
  }

  lemma GoodReady(q: Queue, id: OpId)
    requires Good(q) && id in q.ops
    ensures Ready(q, id)
  {
    hide Inv, Accounted;
  }

  /** A value whose ticket a pop has claimed has been taken, or that pop is still on its way to take it. */
  lemma PassedBy(q: Queue, p: Pos)
    requires Inv(q) && IsPushed(q, p) && p.t < q.blocks[p.blk].head
    ensures IsPopped(q, p) || IsClaimed(q, p)
  {
    var b := q.blocks[p.blk];
    assert B.Inv(b);
    hide B.Inv;
    if !IsPopped(q, p) {
      B.StoredInReach(b, p.t);
    }
  }

  /**
   No value is stranded and none is duplicated: every value pushed has been popped, or a pop
   in flight holds its ticket, or its ticket is still ahead of the block at mq_head or of a
   later block. Moving mq_head past a block strands nothing.
   */
  lemma {:induction false} NothingLost(acts: seq<Action>, p: Pos)
    requires IsPushed(Run(acts), p)
    ensures var q := Run(acts);
      || IsPopped(q, p)
      || IsClaimed(q, p)
      || (q.head <= p.blk && q.blocks[p.blk].head <= p.t)
  {
    var q := Run(acts);
    RunKeepsGood(acts);
    var b := q.blocks[p.blk];
    assert B.Inv(b);
    B.HistoryFacts(b);
    hide B.Inv;
    if p.blk < q.head {
      assert B.Drained(b);
      PassedBy(q, p);
    } else if p.t < b.head {
      PassedBy(q, p);
    }
  }

  /** A pop returns the value of one push, and no two pops return the same push. */
  lemma {:induction false} PopsAreExact(acts: seq<Action>, i: OpId, j: OpId)
    requires var q := Run(acts); i in q.ops && j in q.ops && q.ops[i].PopDone? && q.ops[j].PopDone?
    ensures var q := Run(acts); var p := q.ops[i].pos;
      && IsPushed(q, p) && q.blocks[p.blk].pushed[p.t].val == q.ops[i].val && IsPopped(q, p)
      && (i != j ==> q.ops[j].pos != p)
  {
    var q := Run(acts);
    RunKeepsGood(acts);
    assert OpOk(q, i) && OpOk(q, j);
  }

  /** mq_head has only moved past blocks that are closed and whose every ticket is claimed by a pop. */
  lemma {:induction false} PassedBlocksAreDrained(acts: seq<Action>, i: nat)
    requires i < Run(acts).head
    ensures i < |Run(acts).blocks|
    ensures var b := Run(acts).blocks[i]; b.closed && forall t :: t in b.pushed ==> t < b.head
  {
    RunKeepsGood(acts);
    var b := Run(acts).blocks[i];
    assert B.Inv(b) && B.Drained(b);
    B.HistoryFacts(b);
  }

  lemma PlacesInOrder(q: Queue, pa: Pos, pb: Pos)
    requires Good(q) && IsPushed(q, pb)
    requires var id := q.blocks[pb.blk].pushed[pb.t].owner; id in q.began && pa in q.began[id]
    ensures IsPushed(q, pa) && Before(pa, pb)
  {
    var id := q.blocks[pb.blk].pushed[pb.t].owner;
    hide B.Inv, BlocksOk;
    assert Placed(q, id, pb) && OpOk(q, id);
  }

  /**
   First in, first out: if push a returned before push b began, then once the value of b has
   been popped, or even claimed, the value of a has been popped or is claimed by a pop in flight.
   */
  lemma {:induction false} FirstInFirstOut(acts: seq<Action>, pa: Pos, pb: Pos)
    requires var q := Run(acts);
      && IsPushed(q, pb) && (IsPopped(q, pb) || IsClaimed(q, pb))
      && q.blocks[pb.blk].pushed[pb.t].owner in q.began
      && pa in q.began[q.blocks[pb.blk].pushed[pb.t].owner]
    ensures var q := Run(acts); IsPushed(q, pa) && (IsPopped(q, pa) || IsClaimed(q, pa))
  {
    var q := Run(acts);
    RunKeepsGood(acts);
    PlacesInOrder(q, pa, pb);
    var a, b := q.blocks[pa.blk], q.blocks[pb.blk];
    assert B.Inv(a) && B.Inv(b);
    B.HistoryFacts(a);
    B.HistoryFacts(b);
    assert pb.blk <= q.head;
    assert pa.blk < pb.blk ==> B.Drained(a);
    hide B.Inv, Inv;
    PassedBy(q, pa);
  }
}
