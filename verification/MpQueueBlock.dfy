/**
 One circular block of the lock-free queue (server/common/mp-queue.c).

 Any number of operations run on the block at once. Each atomic memory access of
 mpq_block_push, mpq_block_pop and mpq_fix_state is one step, so a run is an arbitrary
 interleaving of steps. Tickets are unbounded, memory is sequentially consistent. The
 fields after `ops` are history: no step reads them.
 */
module MpQueueBlock {

  type OpId = nat

  /** A cell: (idx, MQN_SAFE bit, val); val 0 is the null pointer. */
  datatype Cell = Cell(idx: nat, safe: bool, val: nat)

  /** Where an operation stands; the name says what its next step does. */
  datatype Pc =
    | PopTake                                            // fetch-and-add mqb_head
    | PopReadVal(h: nat)
    | PopReadIdx(h: nat, val: nat)
    | PopCas(h: nat, seen: Cell)
    | PopReadTail(h: nat)
    | FixReadTail(sawClosed: bool)
    | FixReadHead(sawClosed: bool, t: nat, tClosed: bool)
    | FixRecheck(sawClosed: bool, t: nat, h: nat)
    | FixCas(sawClosed: bool, t: nat, h: nat)
    | PopGot(h: nat, val: nat)                           // returned val
    | PopEmpty(sawClosed: bool)                          // returned null
    | PushTake(v: nat, iterations: nat)                  // fetch-and-add mqb_tail
    | PushReadVal(v: nat, iterations: nat, t: nat)
    | PushReadIdx(v: nat, iterations: nat, t: nat, oldVal: nat)
    | PushReadHead(v: nat, iterations: nat, t: nat, seen: Cell)
    | PushCas(v: nat, iterations: nat, t: nat, seen: Cell)
    | PushGiveUp(v: nat, iterations: nat, t: nat)        // read mqb_head, maybe close
    | PushClose(v: nat)
    | PushDone(v: nat, t: nat)                           // returned t
    | PushFailed(v: nat)                                 // returned -1

  datatype Push = Push(owner: OpId, val: nat)

  datatype Block = Block(
    head: nat, tail: nat, closed: bool, cells: seq<Cell>,
    ops: map<OpId, Pc>,
    lim: nat,                   // mqb_tail, frozen when the block closes
    pushed: map<nat, Push>,     // ticket -> what was stored under it, and by whom
    popped: map<nat, OpId>,     // ticket -> pop that took its value
    open: map<nat, OpId>)       // ticket -> pop that holds it and has not yet dealt with its cell

  /** The remainder of t by size, by repeated subtraction: h & (size - 1) for the powers of two used. */
  function Slot(size: nat, t: nat): (i: nat)
    requires size > 0
    ensures i < size
  {
    if t < size then t else Slot(size, t - size)
  }

  function At(cells: seq<Cell>, t: nat): Cell
    requires |cells| > 0
  {
    cells[Slot(|cells|, t)]
  }

  function Put(cells: seq<Cell>, t: nat, c: Cell): (r: seq<Cell>)
    requires |cells| > 0
    ensures |r| == |cells|
  {
    cells[Slot(|cells|, t) := c]
  }

  /** The block alloc_mpq_block returns: empty, or holding firstVal, put by `owner`, under ticket 0. */
  function Fresh(size: nat, owner: OpId, firstVal: nat): Block
    requires size > 0
  {
    var cells := seq(size, i requires 0 <= i < size => Cell(i, true, if i == 0 then firstVal else 0));
    if firstVal != 0 then Block(0, 1, false, cells, map[], 1, map[0 := Push(owner, firstVal)], map[], map[])
    else Block(0, 0, false, cells, map[], 0, map[], map[], map[])
  }

  function Goto(b: Block, id: OpId, pc: Pc): Block {
    b.(ops := b.ops[id := pc])
  }

  /** The pop holding ticket h is done with the cell of h. */
  function Settle(b: Block, id: OpId, h: nat): Block {
    b.(open := b.open - {h}, ops := b.ops[id := PopReadTail(h)])
  }

  // ---------- steps ----------

  function StepPopTake(b: Block, id: OpId): Block {
    b.(head := b.head + 1, open := b.open[b.head := id], ops := b.ops[id := PopReadVal(b.head)])
  }

  function StepPopReadIdx(b: Block, id: OpId, h: nat, val: nat): Block
    requires |b.cells| > 0
  {
    var c := At(b.cells, h);
    if c.idx > h then Settle(b, id, h) else Goto(b, id, PopCas(h, Cell(c.idx, c.safe, val)))
  }

  /** The successful compare-and-swap of a pop on the cell that holds its own ticket's value. */
  function Take(b: Block, id: OpId, h: nat, d: Cell): Block
    requires |b.cells| > 0
  {
    b.(cells := Put(b.cells, h, Cell(d.idx + |b.cells|, d.safe, 0)),
       popped := b.popped[h := id], open := b.open - {h}, ops := b.ops[id := PopGot(h, d.val)])
  }

  /** The other successful compare-and-swaps of a pop: leave c in the cell and be done with it. */
  function Replace(b: Block, id: OpId, h: nat, c: Cell): Block
    requires |b.cells| > 0
  {
    Settle(b.(cells := Put(b.cells, h, c)), id, h)
  }

  function StepPopCas(b: Block, id: OpId, h: nat, d: Cell): Block
    requires |b.cells| > 0
  {
    if At(b.cells, h) != d then Goto(b, id, PopReadVal(h))
    else if d.val == 0 then Replace(b, id, h, d.(idx := h + |b.cells|))
    else if d.idx != h then Replace(b, id, h, d.(safe := false))
    else Take(b, id, h, d)
  }

  function StepPopReadTail(b: Block, id: OpId, h: nat): Block {
    if b.tail <= h + 1 then Goto(b, id, FixReadTail(b.closed)) else Goto(b, id, PopTake)
  }

  /** A closed tail carries the top bit, so read as unsigned it exceeds every head. */
  function StepFixReadHead(b: Block, id: OpId, sc: bool, t: nat, tClosed: bool): Block {
    if tClosed || b.head <= t then Goto(b, id, PopEmpty(sc)) else Goto(b, id, FixRecheck(sc, t, b.head))
  }

  function StepFixRecheck(b: Block, id: OpId, sc: bool, t: nat, h: nat): Block {
    if b.closed || b.tail != t then Goto(b, id, FixReadTail(sc)) else Goto(b, id, FixCas(sc, t, h))
  }

  function StepFixCas(b: Block, id: OpId, sc: bool, t: nat, h: nat): Block {
    if b.closed || b.tail != t then Goto(b, id, FixReadTail(sc))
    else Goto(b, id, PopEmpty(sc)).(tail := h, lim := h)
  }

  function StepPushTake(b: Block, id: OpId, v: nat, n: nat): Block {
    if b.closed then Goto(b, id, PushFailed(v)).(tail := b.tail + 1)
    else Goto(b, id, PushReadVal(v, n, b.tail)).(tail := b.tail + 1, lim := b.tail + 1)
  }

  function StepPushReadIdx(b: Block, id: OpId, v: nat, n: nat, t: nat, oldVal: nat): Block
    requires |b.cells| > 0
  {
    var c := At(b.cells, t);
    if oldVal != 0 || c.idx > t then Goto(b, id, PushGiveUp(v, n, t))
    else if c.safe then Goto(b, id, PushCas(v, n, t, Cell(c.idx, true, 0)))
    else Goto(b, id, PushReadHead(v, n, t, Cell(c.idx, false, 0)))
  }

  function StepPushReadHead(b: Block, id: OpId, v: nat, n: nat, t: nat, d: Cell): Block {
    if b.head <= t then Goto(b, id, PushCas(v, n, t, d)) else Goto(b, id, PushGiveUp(v, n, t))
  }

  /** The successful compare-and-swap of a push. */
  function Store(b: Block, id: OpId, v: nat, t: nat): Block
    requires |b.cells| > 0
  {
    b.(cells := Put(b.cells, t, Cell(t, true, v)), pushed := b.pushed[t := Push(id, v)], ops := b.ops[id := PushDone(v, t)])
  }

  function StepPushCas(b: Block, id: OpId, v: nat, n: nat, t: nat, d: Cell): Block
    requires |b.cells| > 0
  {
    if At(b.cells, t) != d then Goto(b, id, PushGiveUp(v, n, t)) else Store(b, id, v, t)
  }

  function StepPushGiveUp(b: Block, id: OpId, v: nat, n: nat, t: nat): Block {
    if t - b.head >= |b.cells| || n + 1 > 10 then Goto(b, id, PushClose(v)) else Goto(b, id, PushTake(v, n + 1))
  }

  function StepPushClose(b: Block, id: OpId, v: nat): Block {
    Goto(b, id, PushFailed(v)).(closed := true)
  }

  /** The next step of operation id; a finished operation takes no step. */
  function Step(b: Block, id: OpId): (b': Block)
    requires |b.cells| > 0 && id in b.ops
    ensures |b'.cells| == |b.cells|
  {
    match b.ops[id]
    case PopTake => StepPopTake(b, id)
    case PopReadVal(h) => Goto(b, id, PopReadIdx(h, At(b.cells, h).val))
    case PopReadIdx(h, val) => StepPopReadIdx(b, id, h, val)
    case PopCas(h, d) => StepPopCas(b, id, h, d)
    case PopReadTail(h) => StepPopReadTail(b, id, h)
    case FixReadTail(sc) => Goto(b, id, FixReadHead(sc, b.tail, b.closed))
    case FixReadHead(sc, t, tClosed) => StepFixReadHead(b, id, sc, t, tClosed)
    case FixRecheck(sc, t, h) => StepFixRecheck(b, id, sc, t, h)
    case FixCas(sc, t, h) => StepFixCas(b, id, sc, t, h)
    case PushTake(v, n) => StepPushTake(b, id, v, n)
    case PushReadVal(v, n, t) => Goto(b, id, PushReadIdx(v, n, t, At(b.cells, t).val))
    case PushReadIdx(v, n, t, oldVal) => StepPushReadIdx(b, id, v, n, t, oldVal)
    case PushReadHead(v, n, t, d) => StepPushReadHead(b, id, v, n, t, d)
    case PushCas(v, n, t, d) => StepPushCas(b, id, v, n, t, d)
    case PushGiveUp(v, n, t) => StepPushGiveUp(b, id, v, n, t)
    case PushClose(v) => StepPushClose(b, id, v)
    case _ => b
  }

  // ---------- invariant ----------

  /** A pop that holds ticket h and has not dealt with its cell yet. */
  predicate Unsettled(pc: Pc) {
    pc.PopReadVal? || pc.PopReadIdx? || pc.PopCas?
  }

  /** A push that holds a ticket and may still store its value under it. */
  predicate Pushing(pc: Pc) {
    pc.PushReadVal? || pc.PushReadIdx? || pc.PushReadHead? || pc.PushCas?
  }

  predicate PushPc(pc: Pc) {
    Pushing(pc) || pc.PushTake? || pc.PushGiveUp? || pc.PushClose? || pc.PushDone? || pc.PushFailed?
  }

  /** Past the read of mqb_tail that decided to return null. */
  predicate Emptied(pc: Pc) {
    pc.FixReadTail? || pc.FixReadHead? || pc.FixRecheck? || pc.FixCas? || pc.PopEmpty?
  }

  /** Ticket h has been claimed by a pop that is done with its cell. */
  predicate Settled(head: nat, open: map<nat, OpId>, h: nat) {
    h < head && h !in open
  }

  /** What the pop with ticket h leaves behind: no value of ticket h can be here, nor be stored here safely. */
  predicate Passed(c: Cell, h: nat) {
    c.idx > h || (!c.safe && (c.val == 0 || c.idx != h))
  }

  /** Every ticket the block ever gave to a push has been claimed by a pop. */
  predicate Drained(b: Block) {
    b.closed && b.lim <= b.head
  }

  /** Every change of a cell raises this rank, so no compare-and-swap suffers from ABA. */
  function Rank(c: Cell): nat {
    4 * c.idx + (if c.val == 0 then 0 else if c.safe then 2 else 3)
  }

  predicate Advances(c: Cell, d: Cell) {
    c == d || Rank(c) < Rank(d)
  }

  ghost predicate CellsOk(b: Block) {
    && |b.cells| > 0
    && (forall i :: 0 <= i < |b.cells| ==> Slot(|b.cells|, b.cells[i].idx) == i)
    && (forall i :: 0 <= i < |b.cells| && b.cells[i].val != 0 ==>
          b.cells[i].idx in b.pushed && b.pushed[b.cells[i].idx].val == b.cells[i].val && b.cells[i].idx !in b.popped)
    && (forall h: nat :: Settled(b.head, b.open, h) ==> Passed(At(b.cells, h), h))
  }

  ghost predicate HistoryOk(b: Block)
    requires |b.cells| > 0
  {
    && b.lim <= b.tail && (!b.closed ==> b.lim == b.tail)
    && (forall t :: t in b.pushed ==> t < b.lim && b.pushed[t].val != 0)
    && (forall t :: t in b.pushed && t !in b.popped ==>
          At(b.cells, t).idx == t && At(b.cells, t).val == b.pushed[t].val)
    && (forall t :: t in b.popped ==> t in b.pushed && t < b.head && t !in b.open)
    && (forall t :: t in b.open ==>
          && t < b.head && b.open[t] in b.ops
          && Unsettled(b.ops[b.open[t]]) && b.ops[b.open[t]].h == t)
  }

  ghost predicate PopOk(b: Block, id: OpId, pc: Pc) {
    && (Unsettled(pc) ==> pc.h in b.open && b.open[pc.h] == id)
    && (pc.PopCas? ==> pc.seen.idx <= pc.h)
    && (pc.PopReadTail? ==> pc.h < b.head)
    && (Emptied(pc) && pc.sawClosed ==> Drained(b))
    && (pc.FixRecheck? || pc.FixCas? ==> pc.t < pc.h <= b.head)
    && (pc.PopGot? ==> pc.h in b.popped && b.popped[pc.h] == id && pc.h in b.pushed && b.pushed[pc.h].val == pc.val)
  }

  /** No settled ticket of the cell of t is t or later. */
  ghost predicate NonePast(b: Block, t: nat)
    requires |b.cells| > 0
  {
    forall h: nat :: Settled(b.head, b.open, h) && Slot(|b.cells|, h) == Slot(|b.cells|, t) ==> h < t
  }

  ghost predicate PushOk(b: Block, id: OpId, pc: Pc)
    requires |b.cells| > 0
  {
    && (PushPc(pc) ==> pc.v != 0)
    && (Pushing(pc) ==> pc.t < b.lim && pc.t !in b.pushed)
    && (pc.PushReadHead? || pc.PushCas? ==>
          pc.seen.idx <= pc.t && pc.seen.val == 0 && Advances(pc.seen, At(b.cells, pc.t)))
    && (pc.PushReadHead? ==> !pc.seen.safe)
    && (pc.PushCas? && !pc.seen.safe && At(b.cells, pc.t) == pc.seen ==> NonePast(b, pc.t))
    && (pc.PushDone? ==> pc.t in b.pushed && b.pushed[pc.t] == Push(id, pc.v))
    && (pc.PushFailed? ==> b.closed)
  }

  ghost predicate OpsOk(b: Block)
    requires |b.cells| > 0
  {
    && (forall id :: id in b.ops ==> PopOk(b, id, b.ops[id]) && PushOk(b, id, b.ops[id]))
    && (forall i, j :: i in b.ops && j in b.ops && i != j && Pushing(b.ops[i]) && Pushing(b.ops[j]) ==>
          b.ops[i].t != b.ops[j].t)
  }

  ghost predicate Inv(b: Block) {
    CellsOk(b) && HistoryOk(b) && OpsOk(b)
  }

  lemma FreshInv(size: nat, owner: OpId, firstVal: nat)
    requires size > 0
    ensures Inv(Fresh(size, owner, firstVal))
  {
  }

  // ---------- what a step of one operation does to the others ----------

  /** How a step of operation id changes what the other operations rely on. */
  ghost predicate Later(b: Block, b': Block, id: OpId)
    requires |b.cells| > 0 && id in b.ops
  {
    && |b'.cells| == |b.cells| && b.head <= b'.head && b.lim <= b'.lim
    && (b.closed ==> b'.closed && b'.lim == b.lim)
    && (forall t :: t in b.open && b.open[t] != id ==> t in b'.open && b'.open[t] == b.open[t])
    && (forall t :: t in b.pushed ==> t in b'.pushed && b'.pushed[t] == b.pushed[t])
    && (forall t :: t in b'.pushed && t !in b.pushed ==> Pushing(b.ops[id]) && b.ops[id].t == t)
    && (forall t :: t in b.popped ==> t in b'.popped && b'.popped[t] == b.popped[t])
    && (forall t: nat :: Advances(At(b.cells, t), At(b'.cells, t)))
    && (forall h: nat :: Settled(b'.head, b'.open, h) && !Settled(b.head, b.open, h) ==>
          At(b'.cells, h).idx > h || At(b'.cells, h).val != 0)
  }

  lemma OthersStayOk(b: Block, b': Block, id: OpId, j: OpId)
    requires Inv(b) && id in b.ops && j in b.ops && j != id && Later(b, b', id)
    ensures PopOk(b', j, b.ops[j]) && PushOk(b', j, b.ops[j])
  {
    var pc := b.ops[j];
    assert PopOk(b, j, pc) && PushOk(b, j, pc);
    if pc.PushCas? && !pc.seen.safe && At(b'.cells, pc.t) == pc.seen {
      assert Advances(pc.seen, At(b.cells, pc.t)) && Advances(At(b.cells, pc.t), At(b'.cells, pc.t));
      assert At(b.cells, pc.t) == pc.seen;
      assert NonePast(b, pc.t);
    }
  }

  /** A step that sets pc' for id and otherwise only moves the block forward keeps every operation in order. */
  lemma OpsStayOk(b: Block, b': Block, id: OpId, pc: Pc)
    requires Inv(b) && id in b.ops && Later(b, b', id) && b'.ops == b.ops[id := pc]
    requires PopOk(b', id, pc) && PushOk(b', id, pc)
    requires Pushing(pc) ==> (Pushing(b.ops[id]) && b.ops[id].t == pc.t) || pc.t == b.lim
    ensures OpsOk(b')
  {
    forall j | j in b.ops && j != id
      ensures PopOk(b', j, b'.ops[j]) && PushOk(b', j, b'.ops[j])
    {
      OthersStayOk(b, b', id, j);
    }
  }

  /** A step that changes nothing but where id stands. */
  lemma QuietStep(b: Block, id: OpId, pc: Pc)
    requires Inv(b) && id in b.ops && PopOk(b, id, pc) && PushOk(b, id, pc)
    requires Unsettled(b.ops[id]) ==> Unsettled(pc) && pc.h == b.ops[id].h
    requires Pushing(pc) ==> Pushing(b.ops[id]) && b.ops[id].t == pc.t
    ensures Inv(Goto(b, id, pc))
  {
    var b' := Goto(b, id, pc);
    assert CellsOk(b') && HistoryOk(b');
    assert Later(b, b', id);
    OpsStayOk(b, b', id, pc);
  }

  lemma {:induction false} SlotPlus(size: nat, t: nat)
    requires size > 0
    ensures Slot(size, t + size) == Slot(size, t)
  {
  }

  lemma PopTakeState(b: Block, id: OpId)
    requires Inv(b) && id in b.ops && b.ops[id].PopTake?
    ensures CellsOk(Step(b, id)) && HistoryOk(Step(b, id))
  {
  }

  lemma PopTakeKeepsInv(b: Block, id: OpId)
    requires Inv(b) && id in b.ops && b.ops[id].PopTake?
    ensures Inv(Step(b, id)) && Later(b, Step(b, id), id)
  {
    PopTakeState(b, id);
    PopTakeLater(b, id);
    hide Later, CellsOk, HistoryOk;
    OpsStayOk(b, Step(b, id), id, Step(b, id).ops[id]);
  }

  lemma PopTakeLater(b: Block, id: OpId)
    requires Inv(b) && id in b.ops && b.ops[id].PopTake?
    ensures Later(b, Step(b, id), id)
  {
    hide OpsOk;
  }

  lemma SettleState(b: Block, id: OpId, h: nat)
    requires Inv(b) && id in b.ops && Unsettled(b.ops[id]) && b.ops[id].h == h && Passed(At(b.cells, h), h)
    ensures CellsOk(Settle(b, id, h)) && HistoryOk(Settle(b, id, h))
  {
    var b' := Settle(b, id, h);
    forall g: nat | Settled(b'.head, b'.open, g)
      ensures Passed(At(b'.cells, g), g)
    {
      assert g != h ==> Settled(b.head, b.open, g);
    }
  }

  lemma SettleLater(b: Block, id: OpId, h: nat)
    requires Inv(b) && id in b.ops && Unsettled(b.ops[id]) && b.ops[id].h == h
    requires At(b.cells, h).val != 0 || At(b.cells, h).idx > h
    ensures Later(b, Settle(b, id, h), id)
  {
  }

  lemma SettleKeepsInv(b: Block, id: OpId, h: nat)
    requires Inv(b) && id in b.ops && Unsettled(b.ops[id]) && b.ops[id].h == h
    requires At(b.cells, h).val != 0 || At(b.cells, h).idx > h
    requires Passed(At(b.cells, h), h)
    ensures Inv(Settle(b, id, h))
  {
    var b' := Settle(b, id, h);
    SettleState(b, id, h);
    SettleLater(b, id, h);
    OpsStayOk(b, b', id, PopReadTail(h));
  }

  /** How a write to the cell of h shows at every ticket. */
  lemma AtPut(cells: seq<Cell>, h: nat, c: Cell, t: nat)
    requires |cells| > 0
    ensures At(Put(cells, h, c), t) == if Slot(|cells|, t) == Slot(|cells|, h) then c else At(cells, t)
  {
  }

  /** A later content for the cell of h that stores nothing new: idx raised on an empty cell, or safe cleared. */
  predicate Neutral(c: Cell, d: Cell) {
    Advances(c, d) && d.val == c.val && (d.val != 0 ==> d.idx == c.idx) && (d.safe ==> c.safe)
  }

  lemma PutCells(b: Block, h: nat, c: Cell)
    requires Inv(b) && Slot(|b.cells|, c.idx) == Slot(|b.cells|, h) && Neutral(At(b.cells, h), c)
    ensures CellsOk(b.(cells := Put(b.cells, h, c)))
  {
    var b' := b.(cells := Put(b.cells, h, c));
    forall g: nat | Settled(b.head, b.open, g)
      ensures Passed(At(b'.cells, g), g)
    {
      AtPut(b.cells, h, c, g);
    }
  }

  lemma PutHistory(b: Block, h: nat, c: Cell)
    requires Inv(b) && Neutral(At(b.cells, h), c)
    ensures HistoryOk(b.(cells := Put(b.cells, h, c)))
  {
    var b' := b.(cells := Put(b.cells, h, c));
    forall t | t in b.pushed && t !in b.popped
      ensures At(b'.cells, t).idx == t && At(b'.cells, t).val == b.pushed[t].val
    {
      AtPut(b.cells, h, c, t);
    }
  }

  lemma PutLater(b: Block, id: OpId, h: nat, c: Cell)
    requires Inv(b) && id in b.ops && Neutral(At(b.cells, h), c)
    ensures Later(b, b.(cells := Put(b.cells, h, c)), id)
  {
    var b' := b.(cells := Put(b.cells, h, c));
    forall t: nat
      ensures Advances(At(b.cells, t), At(b'.cells, t))
    {
      AtPut(b.cells, h, c, t);
    }
  }

  lemma PutKeepsInv(b: Block, id: OpId, h: nat, c: Cell)
    requires Inv(b) && id in b.ops && Unsettled(b.ops[id])
    requires Slot(|b.cells|, c.idx) == Slot(|b.cells|, h) && Neutral(At(b.cells, h), c)
    ensures Inv(b.(cells := Put(b.cells, h, c)))
  {
    var b' := b.(cells := Put(b.cells, h, c));
    PutCells(b, h, c);
    PutHistory(b, h, c);
    PutLater(b, id, h, c);
    assert b'.ops == b.ops[id := b.ops[id]];
    OpsStayOk(b, b', id, b.ops[id]);
  }

  lemma TakeState(b: Block, id: OpId, h: nat)
    requires Inv(b) && id in b.ops && Unsettled(b.ops[id]) && b.ops[id].h == h
    requires At(b.cells, h).idx == h && At(b.cells, h).val != 0
    ensures CellsOk(Take(b, id, h, At(b.cells, h)))
  {
    var d := At(b.cells, h);
    var c := Cell(h + |b.cells|, d.safe, 0);
    var b' := Take(b, id, h, d);
    SlotPlus(|b.cells|, h);
    forall g: nat | Settled(b'.head, b'.open, g)
      ensures Passed(At(b'.cells, g), g)
    {
      AtPut(b.cells, h, c, g);
      assert g != h ==> Settled(b.head, b.open, g);
    }
  }

  lemma TakeHistory(b: Block, id: OpId, h: nat)
    requires Inv(b) && id in b.ops && Unsettled(b.ops[id]) && b.ops[id].h == h
    requires At(b.cells, h).idx == h && At(b.cells, h).val != 0
    ensures HistoryOk(Take(b, id, h, At(b.cells, h)))
  {
    var d := At(b.cells, h);
    var c := Cell(h + |b.cells|, d.safe, 0);
    var b' := Take(b, id, h, d);
    forall t | t in b'.pushed && t !in b'.popped
      ensures At(b'.cells, t).idx == t && At(b'.cells, t).val == b'.pushed[t].val
    {
      AtPut(b.cells, h, c, t);
    }
  }

  lemma TakeAdvances(b: Block, id: OpId, h: nat, t: nat)
    requires Inv(b) && At(b.cells, h).idx == h
    ensures Advances(At(b.cells, t), At(Take(b, id, h, At(b.cells, h)).cells, t))
  {
    AtPut(b.cells, h, Cell(h + |b.cells|, At(b.cells, h).safe, 0), t);
  }

  lemma TakeLater(b: Block, id: OpId, h: nat)
    requires Inv(b) && id in b.ops && Unsettled(b.ops[id]) && b.ops[id].h == h
    requires At(b.cells, h).idx == h && At(b.cells, h).val != 0
    ensures Later(b, Take(b, id, h, At(b.cells, h)), id)
  {
    var b' := Take(b, id, h, At(b.cells, h));
    forall t: nat
      ensures Advances(At(b.cells, t), At(b'.cells, t))
    {
      TakeAdvances(b, id, h, t);
    }
    TakeSettles(b, id, h);
    hide Inv, Advances, At;
  }

  /** The only ticket that becomes settled is h, and its cell has moved on. */
  lemma TakeSettles(b: Block, id: OpId, h: nat)
    requires Inv(b) && id in b.ops && Unsettled(b.ops[id]) && b.ops[id].h == h
    requires At(b.cells, h).idx == h && At(b.cells, h).val != 0
    ensures var b' := Take(b, id, h, At(b.cells, h));
      && |b'.cells| == |b.cells| && b.head <= b'.head && b.lim <= b'.lim && h in b.open && b.open[h] == id && h !in b.popped
      && forall g: nat :: Settled(b'.head, b'.open, g) && !Settled(b.head, b.open, g) ==>
           At(b'.cells, g).idx > g || At(b'.cells, g).val != 0
  {
    AtPut(b.cells, h, Cell(h + |b.cells|, At(b.cells, h).safe, 0), h);
  }

  lemma TakeKeepsInv(b: Block, id: OpId, h: nat)
    requires Inv(b) && id in b.ops && Unsettled(b.ops[id]) && b.ops[id].h == h
    requires At(b.cells, h).idx == h && At(b.cells, h).val != 0
    ensures Inv(Take(b, id, h, At(b.cells, h)))
  {
    var b' := Take(b, id, h, At(b.cells, h));
    TakeState(b, id, h);
    TakeHistory(b, id, h);
    TakeLater(b, id, h);
    OpsStayOk(b, b', id, b'.ops[id]);
  }

  lemma ReplaceKeepsInv(b: Block, id: OpId, h: nat, c: Cell)
    requires Inv(b) && id in b.ops && Unsettled(b.ops[id]) && b.ops[id].h == h
    requires Slot(|b.cells|, c.idx) == Slot(|b.cells|, h) && Neutral(At(b.cells, h), c)
    requires (c.val != 0 || c.idx > h) && Passed(c, h)
    ensures Inv(Replace(b, id, h, c))
  {
    PutKeepsInv(b, id, h, c);
    AtPut(b.cells, h, c, h);
    SettleKeepsInv(b.(cells := Put(b.cells, h, c)), id, h);
  }

  lemma MarkKeepsInv(b: Block, id: OpId, h: nat, d: Cell)
    requires Inv(b) && id in b.ops && Unsettled(b.ops[id]) && b.ops[id].h == h
    requires At(b.cells, h) == d && d.val != 0 && d.idx != h
    ensures Inv(Replace(b, id, h, d.(safe := false)))
  {
    var c := d.(safe := false);
    CellTicket(b, h);
    assert Neutral(d, c);
    ReplaceKeepsInv(b, id, h, c);
  }

  lemma SkipIsNeutral(size: nat, h: nat, d: Cell)
    requires size > 0 && d.val == 0 && d.idx <= h
    ensures Neutral(d, d.(idx := h + size)) && Slot(size, h + size) == Slot(size, h)
  {
    SlotPlus(size, h);
  }

  lemma SkipKeepsInv(b: Block, id: OpId, h: nat, d: Cell)
    requires Inv(b) && id in b.ops && Unsettled(b.ops[id]) && b.ops[id].h == h
    requires At(b.cells, h) == d && d.val == 0 && d.idx <= h
    ensures Inv(Replace(b, id, h, d.(idx := h + |b.cells|)))
  {
    SkipIsNeutral(|b.cells|, h, d);
    ReplaceKeepsInv(b, id, h, d.(idx := h + |b.cells|));
  }

  lemma PopCasRetries(b: Block, id: OpId, h: nat, d: Cell)
    requires Inv(b) && id in b.ops && b.ops[id] == PopCas(h, d)
    ensures Inv(Goto(b, id, PopReadVal(h))) && d.idx <= h
  {
    assert PopOk(b, id, PopCas(h, d));
    QuietStep(b, id, PopReadVal(h));
  }

  lemma PopCasSucceeds(b: Block, id: OpId, h: nat, d: Cell)
    requires Inv(b) && id in b.ops && b.ops[id] == PopCas(h, d) && At(b.cells, h) == d && d.idx <= h
    ensures d.val == 0 ==> Inv(Replace(b, id, h, d.(idx := h + |b.cells|)))
    ensures d.val != 0 && d.idx != h ==> Inv(Replace(b, id, h, d.(safe := false)))
    ensures d.val != 0 && d.idx == h ==> Inv(Take(b, id, h, d))
  {
    hide Inv, Take, Replace, At;
    if d.val == 0 {
      SkipKeepsInv(b, id, h, d);
    } else if d.idx != h {
      MarkKeepsInv(b, id, h, d);
    } else {
      TakeKeepsInv(b, id, h);
    }
  }

  lemma HasCells(b: Block)
    requires Inv(b)
    ensures |b.cells| > 0
  {
    hide PopOk, PushOk;
  }

  lemma PopCasKeepsInv(b: Block, id: OpId, h: nat, d: Cell)
    requires Inv(b) && id in b.ops && b.ops[id] == PopCas(h, d)
    ensures Inv(StepPopCas(b, id, h, d))
  {
    hide Inv, Take, Replace, At, Goto;
    HasCells(b);
    PopCasRetries(b, id, h, d);
    if At(b.cells, h) == d {
      PopCasSucceeds(b, id, h, d);
    }
  }

  lemma CellTicket(b: Block, h: nat)
    requires CellsOk(b)
    ensures Slot(|b.cells|, At(b.cells, h).idx) == Slot(|b.cells|, h)
  {
  }

  lemma PopReadKeepsInv(b: Block, id: OpId)
    requires Inv(b) && id in b.ops && (b.ops[id].PopReadVal? || b.ops[id].PopReadIdx?)
    ensures Inv(Step(b, id))
  {
    var pc := b.ops[id];
    if pc.PopReadIdx? && At(b.cells, pc.h).idx > pc.h {
      SettleKeepsInv(b, id, pc.h);
    } else {
      QuietStep(b, id, Step(b, id).ops[id]);
    }
  }

  lemma PopReadTailKeepsInv(b: Block, id: OpId)
    requires Inv(b) && id in b.ops && b.ops[id].PopReadTail?
    ensures Inv(Step(b, id))
  {
    var h := b.ops[id].h;
    PopReadTailOk(b, id, h);
    hide Inv, PopOk, PushOk;
    QuietStep(b, id, if b.tail <= h + 1 then FixReadTail(b.closed) else PopTake);
  }

  lemma PopReadTailOk(b: Block, id: OpId, h: nat)
    requires Inv(b) && id in b.ops && b.ops[id] == PopReadTail(h)
    ensures |b.cells| > 0
    ensures var pc := if b.tail <= h + 1 then FixReadTail(b.closed) else PopTake; PopOk(b, id, pc) && PushOk(b, id, pc)
  {
    assert PopOk(b, id, b.ops[id]);
    hide CellsOk;
  }

  lemma FixReadKeepsInv(b: Block, id: OpId)
    requires Inv(b) && id in b.ops && (b.ops[id].FixReadTail? || b.ops[id].FixReadHead? || b.ops[id].FixRecheck?)
    ensures Inv(Step(b, id))
  {
    assert PopOk(b, id, b.ops[id]);
    match b.ops[id]
    case FixReadTail(sc) => QuietStep(b, id, FixReadHead(sc, b.tail, b.closed));
    case FixReadHead(sc, t, tClosed) =>
      QuietStep(b, id, if tClosed || b.head <= t then PopEmpty(sc) else FixRecheck(sc, t, b.head));
    case FixRecheck(sc, t, h) =>
      QuietStep(b, id, if b.closed || b.tail != t then FixReadTail(sc) else FixCas(sc, t, h));
  }

  lemma FixAdvance(b: Block, id: OpId)
    requires Inv(b) && id in b.ops && b.ops[id].FixCas? && !b.closed && b.tail == b.ops[id].t
    ensures CellsOk(Step(b, id)) && HistoryOk(Step(b, id)) && Later(b, Step(b, id), id)
  {
    assert PopOk(b, id, b.ops[id]);
  }

  lemma FixCasKeepsInv(b: Block, id: OpId)
    requires Inv(b) && id in b.ops && b.ops[id].FixCas?
    ensures Inv(Step(b, id))
  {
    assert PopOk(b, id, b.ops[id]);
    var FixCas(sc, t, h) := b.ops[id];
    if b.closed || b.tail != t {
      QuietStep(b, id, FixReadTail(sc));
    } else {
      FixAdvance(b, id);
      OpsStayOk(b, Step(b, id), id, PopEmpty(sc));
    }
  }

  /** The cell of t is empty, not ahead of t, and no pop is past ticket t on it. */
  ghost predicate CanStore(b: Block, id: OpId, v: nat, t: nat)
    requires |b.cells| > 0 && id in b.ops
  {
    && b.ops[id].PushCas? && b.ops[id].t == t && b.ops[id].v == v
    && At(b.cells, t).val == 0 && At(b.cells, t).idx <= t && NonePast(b, t)
  }

  lemma PushCasCanStore(b: Block, id: OpId)
    requires Inv(b) && id in b.ops && b.ops[id].PushCas? && At(b.cells, b.ops[id].t) == b.ops[id].seen
    ensures CanStore(b, id, b.ops[id].v, b.ops[id].t)
  {
    assert PushOk(b, id, b.ops[id]);
  }

  lemma StoreState(b: Block, id: OpId, v: nat, t: nat)
    requires Inv(b) && id in b.ops && CanStore(b, id, v, t)
    ensures CellsOk(Store(b, id, v, t))
  {
    var b' := Store(b, id, v, t);
    var c := Cell(t, true, v);
    assert PushOk(b, id, b.ops[id]);
    forall g: nat | Settled(b'.head, b'.open, g)
      ensures Passed(At(b'.cells, g), g)
    {
      AtPut(b.cells, t, c, g);
    }
  }

  lemma StoreHistory(b: Block, id: OpId, v: nat, t: nat)
    requires Inv(b) && id in b.ops && CanStore(b, id, v, t)
    ensures HistoryOk(Store(b, id, v, t))
  {
    var b' := Store(b, id, v, t);
    var c := Cell(t, true, v);
    assert PushOk(b, id, b.ops[id]);
    forall u | u in b'.pushed && u !in b'.popped
      ensures At(b'.cells, u).idx == u && At(b'.cells, u).val == b'.pushed[u].val
    {
      AtPut(b.cells, t, c, u);
    }
  }

  lemma StoreLater(b: Block, id: OpId, v: nat, t: nat)
    requires Inv(b) && id in b.ops && CanStore(b, id, v, t)
    ensures Later(b, Store(b, id, v, t), id)
  {
    var b' := Store(b, id, v, t);
    var c := Cell(t, true, v);
    assert PushOk(b, id, b.ops[id]);
    forall u: nat
      ensures Advances(At(b.cells, u), At(b'.cells, u))
    {
      AtPut(b.cells, t, c, u);
    }
  }

  lemma PushCasKeepsInv(b: Block, id: OpId)
    requires Inv(b) && id in b.ops && b.ops[id].PushCas?
    ensures Inv(Step(b, id))
  {
    var PushCas(v, n, t, d) := b.ops[id];
    if At(b.cells, t) != d {
      QuietStep(b, id, PushGiveUp(v, n, t));
    } else {
      PushCasCanStore(b, id);
      StoreState(b, id, v, t);
      StoreHistory(b, id, v, t);
      StoreLater(b, id, v, t);
      OpsStayOk(b, Store(b, id, v, t), id, PushDone(v, t));
    }
  }

  lemma PushReadIdxKeepsInv(b: Block, id: OpId, v: nat, n: nat, t: nat, oldVal: nat)
    requires Inv(b) && id in b.ops && b.ops[id] == PushReadIdx(v, n, t, oldVal)
    ensures Inv(StepPushReadIdx(b, id, v, n, t, oldVal))
  {
    assert PushOk(b, id, PushReadIdx(v, n, t, oldVal));
    var c := At(b.cells, t);
    if oldVal != 0 || c.idx > t {
      QuietStep(b, id, PushGiveUp(v, n, t));
    } else {
      var d := Cell(c.idx, c.safe, 0);
      assert Advances(d, c);
      QuietStep(b, id, if c.safe then PushCas(v, n, t, d) else PushReadHead(v, n, t, d));
    }
  }

  lemma PushReadHeadKeepsInv(b: Block, id: OpId, v: nat, n: nat, t: nat, d: Cell)
    requires Inv(b) && id in b.ops && b.ops[id] == PushReadHead(v, n, t, d)
    ensures Inv(StepPushReadHead(b, id, v, n, t, d))
  {
    assert PushOk(b, id, PushReadHead(v, n, t, d));
    if b.head <= t {
      assert NonePast(b, t);
      QuietStep(b, id, PushCas(v, n, t, d));
    } else {
      QuietStep(b, id, PushGiveUp(v, n, t));
    }
  }

  lemma PushGiveUpKeepsInv(b: Block, id: OpId, v: nat, n: nat, t: nat)
    requires Inv(b) && id in b.ops && b.ops[id] == PushGiveUp(v, n, t)
    ensures Inv(StepPushGiveUp(b, id, v, n, t))
  {
    assert PushOk(b, id, PushGiveUp(v, n, t));
    QuietStep(b, id, PushClose(v));
    QuietStep(b, id, PushTake(v, n + 1));
  }

  lemma PushTakeState(b: Block, id: OpId)
    requires Inv(b) && id in b.ops && b.ops[id].PushTake?
    ensures CellsOk(Step(b, id)) && HistoryOk(Step(b, id))
  {
  }

  lemma PushTakeLater(b: Block, id: OpId)
    requires Inv(b) && id in b.ops && b.ops[id].PushTake?
    ensures Later(b, Step(b, id), id)
  {
  }

  lemma PushTakeKeepsInv(b: Block, id: OpId)
    requires Inv(b) && id in b.ops && b.ops[id].PushTake?
    ensures Inv(Step(b, id))
  {
    assert PushOk(b, id, b.ops[id]);
    PushTakeState(b, id);
    PushTakeLater(b, id);
    OpsStayOk(b, Step(b, id), id, Step(b, id).ops[id]);
  }

  lemma PushCloseState(b: Block, id: OpId)
    requires Inv(b) && id in b.ops && b.ops[id].PushClose?
    ensures CellsOk(Step(b, id)) && HistoryOk(Step(b, id))
  {
  }

  lemma PushCloseLater(b: Block, id: OpId)
    requires Inv(b) && id in b.ops && b.ops[id].PushClose?
    ensures Later(b, Step(b, id), id)
  {
  }

  lemma PushCloseKeepsInv(b: Block, id: OpId)
    requires Inv(b) && id in b.ops && b.ops[id].PushClose?
    ensures Inv(Step(b, id))
  {
    assert PushOk(b, id, b.ops[id]);
    PushCloseState(b, id);
    PushCloseLater(b, id);
    OpsStayOk(b, Step(b, id), id, Step(b, id).ops[id]);
  }

  lemma StepKeepsInv(b: Block, id: OpId)
    requires Inv(b) && id in b.ops
    ensures Inv(Step(b, id))
  {
    assert OpsOk(b);
    match b.ops[id]
    case PopTake => PopTakeKeepsInv(b, id);
    case PopReadVal(_) => PopReadKeepsInv(b, id);
    case PopReadIdx(_, _) => PopReadKeepsInv(b, id);
    case PopCas(h, d) => PopCasKeepsInv(b, id, h, d);
    case PopReadTail(_) => PopReadTailKeepsInv(b, id);
    case FixReadTail(_) => FixReadKeepsInv(b, id);
    case FixReadHead(_, _, _) => FixReadKeepsInv(b, id);
    case FixRecheck(_, _, _) => FixReadKeepsInv(b, id);
    case FixCas(_, _, _) => FixCasKeepsInv(b, id);
    case PushTake(_, _) => PushTakeKeepsInv(b, id);
    case PushReadVal(v, n, t) =>
      assert PushOk(b, id, b.ops[id]);
      QuietStep(b, id, PushReadIdx(v, n, t, At(b.cells, t).val));
    case PushReadIdx(v, n, t, oldVal) => PushReadIdxKeepsInv(b, id, v, n, t, oldVal);
    case PushReadHead(v, n, t, d) => PushReadHeadKeepsInv(b, id, v, n, t, d);
    case PushCas(_, _, _, _) => PushCasKeepsInv(b, id);
    case PushGiveUp(v, n, t) => PushGiveUpKeepsInv(b, id, v, n, t);
    case PushClose(_) => PushCloseKeepsInv(b, id);
    case _ =>
  }

  // ---------- what a whole queue needs to know about a step ----------

  /** What any step of operation id does to the block, seen from outside. */
  ghost predicate Grows(b: Block, b': Block, id: OpId) {
    && b.head <= b'.head
    && (b.closed ==> b'.closed && b'.lim == b.lim)
    && (forall t :: t in b.pushed ==> t in b'.pushed && b'.pushed[t] == b.pushed[t])
    && (forall t :: t in b.popped ==> t in b'.popped && b'.popped[t] == b.popped[t])
    && (forall j :: j != id && j in b.ops ==> j in b'.ops && b'.ops[j] == b.ops[j])
    && (forall j :: j != id && j in b'.ops ==> j in b.ops)
  }

  /** How one step may change where an operation stands, on a block with this closed bit and tail. */
  ghost predicate PcMoves(pc: Pc, pc': Pc, closed: bool, tail: nat) {
    && (PushPc(pc) <==> PushPc(pc'))
    && (PushPc(pc) ==> pc'.v == pc.v)
    && (Emptied(pc') ==> pc'.sawClosed == if Emptied(pc) then pc.sawClosed else closed)
    && (Emptied(pc') && !Emptied(pc) ==> pc.PopReadTail? && tail <= pc.h + 1)
    && (Pushing(pc') || pc'.PushDone? ==>
          if Pushing(pc) || pc.PushDone? then pc'.t == pc.t else !closed && pc'.t == tail)
    && (pc'.PushDone? ==> pc.PushDone? || pc.PushCas?)
    && (pc'.PopGot? ==> pc.PopGot? || (Unsettled(pc) && pc'.h == pc.h))
  }

  /** What a step of operation id adds to the history of the block. */
  ghost predicate Moves(b: Block, b': Block, id: OpId)
    requires id in b.ops
  {
    && id in b'.ops
    && PcMoves(b.ops[id], b'.ops[id], b.closed, b.tail)
    && (PushPc(b.ops[id]) ==> b'.head == b.head)
    && (forall t :: t in b'.pushed && t !in b.pushed ==>
          Pushing(b.ops[id]) && b'.ops[id].PushDone? && b'.ops[id].t == t && b'.pushed[t] == Push(id, b'.ops[id].v))
    && (forall t :: t in b'.popped && t !in b.popped ==>
          b'.ops[id].PopGot? && b'.ops[id].h == t && b'.popped[t] == id)
  }

  lemma GotoGrows(b: Block, id: OpId, pc: Pc)
    requires id in b.ops && PcMoves(b.ops[id], pc, b.closed, b.tail)
    ensures Grows(b, Goto(b, id, pc), id) && Moves(b, Goto(b, id, pc), id)
  {
    hide PcMoves;
  }

  lemma ReplaceGrows(b: Block, id: OpId, h: nat, c: Cell)
    requires |b.cells| > 0 && id in b.ops && Unsettled(b.ops[id]) && b.ops[id].h == h
    ensures Grows(b, Replace(b, id, h, c), id) && Moves(b, Replace(b, id, h, c), id)
  {
    hide Put;
  }

  lemma TakeGrows(b: Block, id: OpId, h: nat, d: Cell)
    requires |b.cells| > 0 && id in b.ops && Unsettled(b.ops[id]) && b.ops[id].h == h && h !in b.popped
    ensures Grows(b, Take(b, id, h, d), id) && Moves(b, Take(b, id, h, d), id)
  {
    hide Put;
  }

  lemma SettleGrows(b: Block, id: OpId, h: nat)
    requires id in b.ops && Unsettled(b.ops[id]) && b.ops[id].h == h
    ensures Grows(b, Settle(b, id, h), id) && Moves(b, Settle(b, id, h), id)
  {
  }

  lemma PopFaaGrows(b: Block, id: OpId)
    requires |b.cells| > 0 && id in b.ops && b.ops[id].PopTake?
    ensures Grows(b, StepPopTake(b, id), id) && Moves(b, StepPopTake(b, id), id)
  {
  }

  lemma FixCasGrows(b: Block, id: OpId, sc: bool, t: nat, h: nat)
    requires |b.cells| > 0 && id in b.ops && b.ops[id] == FixCas(sc, t, h)
    ensures var b' := StepFixCas(b, id, sc, t, h); Grows(b, b', id) && Moves(b, b', id)
  {
  }

  lemma StoreGrows(b: Block, id: OpId, v: nat, t: nat)
    requires |b.cells| > 0 && id in b.ops && b.ops[id].PushCas? && b.ops[id].v == v && b.ops[id].t == t
    requires t !in b.pushed
    ensures Grows(b, Store(b, id, v, t), id) && Moves(b, Store(b, id, v, t), id)
  {
    hide Put;
  }

  lemma PushTakeGrows(b: Block, id: OpId, v: nat, n: nat)
    requires |b.cells| > 0 && id in b.ops && b.ops[id] == PushTake(v, n)
    ensures var b' := StepPushTake(b, id, v, n); Grows(b, b', id) && Moves(b, b', id)
  {
  }

  lemma PushCloseGrows(b: Block, id: OpId, v: nat)
    requires id in b.ops && b.ops[id] == PushClose(v)
    ensures var b' := StepPushClose(b, id, v); Grows(b, b', id) && Moves(b, b', id)
  {
  }

  lemma PopStepGrows(b: Block, id: OpId)
    requires |b.cells| > 0 && id in b.ops && !PushPc(b.ops[id])
    requires b.ops[id].PopCas? ==> b.ops[id].h !in b.popped
    ensures Grows(b, Step(b, id), id) && Moves(b, Step(b, id), id)
  {
    hide Grows, Moves, At, Settle, Replace, Take;
    GotoGrows(b, id, b.ops[id]);
    assert Goto(b, id, b.ops[id]) == b;
    match b.ops[id]
    case PopTake => PopFaaGrows(b, id);
    case PopReadVal(h) => GotoGrows(b, id, PopReadIdx(h, At(b.cells, h).val));
    case PopReadIdx(h, val) =>
      SettleGrows(b, id, h);
      GotoGrows(b, id, PopCas(h, Cell(At(b.cells, h).idx, At(b.cells, h).safe, val)));
    case PopCas(h, d) =>
      GotoGrows(b, id, PopReadVal(h));
      ReplaceGrows(b, id, h, d.(idx := h + |b.cells|));
      ReplaceGrows(b, id, h, d.(safe := false));
      TakeGrows(b, id, h, d);
    case PopReadTail(h) =>
      if b.tail <= h + 1 { GotoGrows(b, id, FixReadTail(b.closed)); } else { GotoGrows(b, id, PopTake); }
    case FixReadTail(sc) => GotoGrows(b, id, FixReadHead(sc, b.tail, b.closed));
    case FixReadHead(sc, t, tClosed) =>
      GotoGrows(b, id, PopEmpty(sc));
      GotoGrows(b, id, FixRecheck(sc, t, b.head));
    case FixRecheck(sc, t, h) =>
      GotoGrows(b, id, FixReadTail(sc));
      GotoGrows(b, id, FixCas(sc, t, h));
    case FixCas(sc, t, h) => FixCasGrows(b, id, sc, t, h);
    case _ =>
  }

  lemma PushStepGrows(b: Block, id: OpId)
    requires |b.cells| > 0 && id in b.ops && PushPc(b.ops[id])
    requires b.ops[id].PushCas? ==> b.ops[id].t !in b.pushed
    ensures Grows(b, Step(b, id), id) && Moves(b, Step(b, id), id)
  {
    hide Grows, Moves, At, Store;
    GotoGrows(b, id, b.ops[id]);
    assert Goto(b, id, b.ops[id]) == b;
    match b.ops[id]
    case PushTake(v, n) => PushTakeGrows(b, id, v, n);
    case PushReadVal(v, n, t) => GotoGrows(b, id, PushReadIdx(v, n, t, At(b.cells, t).val));
    case PushReadIdx(v, n, t, oldVal) =>
      GotoGrows(b, id, PushGiveUp(v, n, t));
      GotoGrows(b, id, PushCas(v, n, t, Cell(At(b.cells, t).idx, true, 0)));
      GotoGrows(b, id, PushReadHead(v, n, t, Cell(At(b.cells, t).idx, false, 0)));
    case PushReadHead(v, n, t, d) =>
      GotoGrows(b, id, PushCas(v, n, t, d));
      GotoGrows(b, id, PushGiveUp(v, n, t));
    case PushCas(v, n, t, d) =>
      GotoGrows(b, id, PushGiveUp(v, n, t));
      StoreGrows(b, id, v, t);
    case PushGiveUp(v, n, t) =>
      GotoGrows(b, id, PushClose(v));
      GotoGrows(b, id, PushTake(v, n + 1));
    case PushClose(v) => PushCloseGrows(b, id, v);
    case _ =>
  }

  lemma StepGrows(b: Block, id: OpId)
    requires Inv(b) && id in b.ops
    ensures Grows(b, Step(b, id), id) && Moves(b, Step(b, id), id)
  {
    assert |b.cells| > 0 && HistoryOk(b) && PopOk(b, id, b.ops[id]) && PushOk(b, id, b.ops[id]);
    assert b.ops[id].PopCas? ==> b.ops[id].h !in b.popped;
    assert b.ops[id].PushCas? ==> b.ops[id].t !in b.pushed;
    hide Inv, HistoryOk, PopOk, PushOk, Grows, Moves, Step;
    if PushPc(b.ops[id]) { PushStepGrows(b, id); } else { PopStepGrows(b, id); }
  }

  /** What the state of an operation says about the block, for callers that do not look inside. */
  lemma StateFacts(b: Block, id: OpId)
    requires Inv(b) && id in b.ops
    ensures |b.cells| > 0
    ensures b.ops[id].PopGot? ==>
      && b.ops[id].h in b.popped && b.popped[b.ops[id].h] == id
      && b.ops[id].h in b.pushed && b.pushed[b.ops[id].h].val == b.ops[id].val && b.ops[id].val != 0
    ensures b.ops[id].PopEmpty? && b.ops[id].sawClosed ==> Drained(b)
    ensures b.ops[id].PushDone? ==> b.ops[id].t in b.pushed && b.pushed[b.ops[id].t] == Push(id, b.ops[id].v)
    ensures b.ops[id].PushFailed? ==> b.closed
    ensures PushPc(b.ops[id]) ==> b.ops[id].v != 0
  {
    assert PopOk(b, id, b.ops[id]) && PushOk(b, id, b.ops[id]) && HistoryOk(b);
  }

  lemma HistoryFacts(b: Block)
    requires Inv(b)
    ensures |b.cells| > 0
    ensures !b.closed ==> b.lim == b.tail
    ensures forall t :: t in b.pushed ==> t < b.lim
    ensures forall t :: t in b.popped ==> t in b.pushed && t < b.head
    ensures forall t :: t in b.open ==>
      t < b.head && b.open[t] in b.ops && Unsettled(b.ops[b.open[t]]) && b.ops[b.open[t]].h == t
  {
    assert HistoryOk(b);
  }

  /** A pop turns to returning null only when no push holds a ticket past the one it just used up. */
  lemma EmptiedStep(b: Block, b': Block, id: OpId)
    requires Inv(b) && id in b.ops && Moves(b, b', id) && !Emptied(b.ops[id]) && Emptied(b'.ops[id])
    ensures b.ops[id].PopReadTail? && b.lim <= b.head
  {
    assert PopOk(b, id, b.ops[id]) && HistoryOk(b);
  }

  /** The next step of pop id is the one that decides to return null. */
  ghost predicate RunsDry(b: Block, id: OpId)
    requires |b.cells| > 0 && id in b.ops
  {
    var b' := Step(b, id);
    id in b'.ops && Emptied(b'.ops[id]) && !Emptied(b.ops[id])
  }

  lemma RunsDryFacts(b: Block, id: OpId)
    requires Inv(b) && |b.cells| > 0 && id in b.ops && RunsDry(b, id)
    ensures b.ops[id].PopReadTail? && b.lim <= b.head
  {
    hide Inv, Grows, Moves, Step;
    StepGrows(b, id);
    EmptiedStep(b, Step(b, id), id);
  }

  /** The operation has returned to its caller. */
  function Retire(b: Block, id: OpId): Block {
    b.(ops := b.ops - {id})
  }

  lemma RetireKeepsInv(b: Block, id: OpId)
    requires Inv(b) && id in b.ops && !Unsettled(b.ops[id])
    ensures Inv(Retire(b, id)) && Grows(b, Retire(b, id), id)
  {
    var b' := Retire(b, id);
    assert CellsOk(b') && HistoryOk(b');
    forall j | j in b'.ops
      ensures PopOk(b', j, b'.ops[j]) && PushOk(b', j, b'.ops[j])
    {
      SameBlockStaysOk(b, b', j);
    }
  }

  lemma StartKeepsInv(b: Block, id: OpId, pc: Pc)
    requires Inv(b) && id !in b.ops && (pc.PopTake? || (pc.PushTake? && pc.v != 0))
    ensures Inv(Goto(b, id, pc)) && Grows(b, Goto(b, id, pc), id)
  {
    var b' := Goto(b, id, pc);
    assert HistoryOk(b');
    forall j | j in b'.ops
      ensures PopOk(b', j, b'.ops[j]) && PushOk(b', j, b'.ops[j])
    {
      if j != id { SameBlockStaysOk(b, b', j); }
    }
  }

  lemma SameBlockStaysOk(b: Block, b': Block, j: OpId)
    requires |b.cells| > 0 && j in b.ops && PopOk(b, j, b.ops[j]) && PushOk(b, j, b.ops[j]) && b' == b.(ops := b'.ops)
    ensures PopOk(b', j, b.ops[j]) && PushOk(b', j, b.ops[j])
  {
  }

  // ---------- runs ----------

  datatype Action = StartPop(id: OpId) | StartPush(id: OpId, v: nat) | Advance(id: OpId)

  /** What one scheduled action does; an action that is not possible changes nothing. */
  function Act(b: Block, a: Action): (b': Block)
    requires |b.cells| > 0
    ensures |b'.cells| == |b.cells|
  {
    match a
    case StartPop(id) => if id in b.ops then b else Goto(b, id, PopTake)
    case StartPush(id, v) => if id in b.ops || v == 0 then b else Goto(b, id, PushTake(v, 0))
    case Advance(id) => if id in b.ops then Step(b, id) else b
  }

  lemma ActKeepsInv(b: Block, a: Action)
    requires Inv(b)
    ensures Inv(Act(b, a))
  {
    match a
    case StartPop(id) => if id !in b.ops { StartKeepsInv(b, id, PopTake); }
    case StartPush(id, v) => if id !in b.ops && v != 0 { StartKeepsInv(b, id, PushTake(v, 0)); }
    case Advance(id) => if id in b.ops { StepKeepsInv(b, id); }
  }

  /** The block after a run: any interleaving, of any number of operations, from a fresh block. */
  ghost function Run(size: nat, owner: OpId, firstVal: nat, acts: seq<Action>): (b: Block)
    requires size > 0
    ensures |b.cells| == size
    decreases |acts|
  {
    if acts == [] then Fresh(size, owner, firstVal)
    else
      var n := |acts| - 1;
      Act(Run(size, owner, firstVal, acts[..n]), acts[n])
  }

  lemma {:induction false} RunKeepsInv(size: nat, owner: OpId, firstVal: nat, acts: seq<Action>)
    requires size > 0
    ensures Inv(Run(size, owner, firstVal, acts))
    decreases |acts|
  {
    hide Inv, Act, Fresh;
    if acts == [] {
      FreshInv(size, owner, firstVal);
    } else {
      RunKeepsInv(size, owner, firstVal, acts[..|acts| - 1]);
      ActKeepsInv(Run(size, owner, firstVal, acts[..|acts| - 1]), acts[|acts| - 1]);
    }
  }

  /** The tickets whose value is still in a cell. */
  ghost function Stored(b: Block): set<nat> {
    set t | t in b.pushed && t !in b.popped
  }

  /**
   Conservation, ticket by ticket: the values pushed are, each once, those popped and
   those still in the cell of their ticket.
   */
  lemma {:induction false} BlockConservation(size: nat, owner: OpId, firstVal: nat, acts: seq<Action>)
    requires size > 0
    ensures var b := Run(size, owner, firstVal, acts);
      && b.pushed.Keys == b.popped.Keys + Stored(b) && b.popped.Keys !! Stored(b)
      && (forall t :: t in Stored(b) ==> At(b.cells, t).idx == t && At(b.cells, t).val == b.pushed[t].val)
      && (forall i :: 0 <= i < |b.cells| && b.cells[i].val != 0 ==>
            b.cells[i].idx in Stored(b) && At(b.cells, b.cells[i].idx) == b.cells[i])
  {
    var b := Run(size, owner, firstVal, acts);
    RunKeepsInv(size, owner, firstVal, acts);
    assert CellsOk(b) && HistoryOk(b);
  }

  /** A pop returns the value pushed under its own ticket, and no two pops return the same push. */
  lemma {:induction false} PopsAreExact(size: nat, owner: OpId, firstVal: nat, acts: seq<Action>, i: OpId, j: OpId)
    requires size > 0
    requires var b := Run(size, owner, firstVal, acts); i in b.ops && j in b.ops && b.ops[i].PopGot? && b.ops[j].PopGot?
    ensures var b := Run(size, owner, firstVal, acts);
      && b.ops[i].h in b.pushed && b.ops[i].val == b.pushed[b.ops[i].h].val != 0
      && (i != j ==> b.ops[i].h != b.ops[j].h)
  {
    var b := Run(size, owner, firstVal, acts);
    RunKeepsInv(size, owner, firstVal, acts);
    assert PopOk(b, i, b.ops[i]) && PopOk(b, j, b.ops[j]) && HistoryOk(b);
  }

  /** A stored value is never out of reach: its ticket is still to be claimed, or a pop in flight holds it. */
  lemma {:induction false} NothingStranded(size: nat, owner: OpId, firstVal: nat, acts: seq<Action>, t: nat)
    requires size > 0 && t in Stored(Run(size, owner, firstVal, acts))
    ensures InReach(Run(size, owner, firstVal, acts), t)
  {
    RunKeepsInv(size, owner, firstVal, acts);
    StoredInReach(Run(size, owner, firstVal, acts), t);
  }

  predicate InReach(b: Block, t: nat) {
    b.head <= t || (t in b.open && b.open[t] in b.ops && Unsettled(b.ops[b.open[t]]) && b.ops[b.open[t]].h == t)
  }

  lemma StoredInReach(b: Block, t: nat)
    requires Inv(b) && t in Stored(b)
    ensures InReach(b, t)
  {
    assert !Passed(At(b.cells, t), t);
    assert !Settled(b.head, b.open, t);
  }
}
