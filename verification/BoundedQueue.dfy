/**
 The bounded multi-producer queue as a state machine. Every atomic load, compare-and-swap and store of `TryPush` and
 `TryPop`, and every construction, move and destruction of a value in a cell, is one step of one thread; steps of any
 number of threads interleave in any order. Positions are unbounded and memory is sequentially consistent.

 The last four fields of a state are its history, which no step reads: `reserved` has the values in the order in which
 their positions were reserved, `popped` the value read from each position, `turn` the position that each cell serves
 and `owner` the thread that last claimed each cell.
 */
module BoundedQueue {

  import opened Arithmetic
  import opened Options

  type Value = int

  type Tid = nat

  datatype Cell = Cell(sequence: int, value: Option<Value>)

  /** Where a thread is inside `TryPush` or `TryPop`. */
  datatype Pc =
    | Idle
    | PushLoad(v: Value)
    | PushCheck(v: Value, pos: nat)
    | PushCas(v: Value, pos: nat)
    | PushWrite(v: Value, pos: nat)
    | PushPublish(v: Value, pos: nat)
    | PopLoad
    | PopCheck(pos: nat)
    | PopCas(pos: nat)
    | PopRead(pos: nat)
    | PopDestroy(pos: nat, v: Value)
    | PopRelease(pos: nat, v: Value)

  datatype State = State(
    enq: nat, deq: nat, cells: seq<Cell>, pcs: map<Tid, Pc>,
    reserved: seq<Value>, popped: map<nat, Value>, turn: seq<int>, owner: seq<Tid>)

  /** A thread's next step. `spurious` is the licence of a weak compare-and-swap to fail without cause. */
  datatype Action = StartPush(v: Value) | StartPop | Advance(spurious: bool)

  function Slot(capacity: nat, pos: int): nat
    requires 0 < capacity
  {
    pos % capacity
  }

  function At(s: State, t: Tid): Pc {
    if t in s.pcs then s.pcs[t] else Idle
  }

  function Goto(s: State, t: Tid, pc: Pc): State {
    s.(pcs := s.pcs[t := pc])
  }

  function Init(capacity: nat): State {
    State(0, 0, seq(capacity, i => Cell(i, None)), map[], [], map[], seq(capacity, i => i), seq(capacity, i => 0))
  }

  /** What `TryPush` and `TryPop` report: nothing while running. */
  datatype Outcome = Running | Full | Pushed | Empty | Popped(v: Value)

  /** Position `s.enq` goes to thread `t`. */
  function Reserved(capacity: nat, s: State, t: Tid, v: Value): State
    requires 0 < capacity == |s.owner|
  {
    Goto(s.(enq := s.enq + 1, reserved := s.reserved + [v], owner := s.owner[Slot(capacity, s.enq) := t]), t,
      PushWrite(v, s.enq))
  }

  /** Position `s.deq` goes to thread `t`. */
  function Claimed(capacity: nat, s: State, t: Tid): State
    requires 0 < capacity == |s.owner|
  {
    Goto(s.(deq := s.deq + 1, owner := s.owner[Slot(capacity, s.deq) := t]), t, PopRead(s.deq))
  }

  /** Thread `t` has read the value at `pos`. */
  function Taken(s: State, t: Tid, pos: nat, v: Value): State {
    Goto(s.(popped := s.popped[pos := v]), t, PopDestroy(pos, v))
  }

  /** The effect of a step by which the owner of a cell changes that cell. */
  function Touched(s: State, t: Tid, i: nat, cell: Cell, turn: int, pc: Pc): State
    requires i < |s.cells| && i < |s.turn|
  {
    Goto(s.(cells := s.cells[i := cell], turn := s.turn[i := turn]), t, pc)
  }

  function PushStep(capacity: nat, s: State, t: Tid, spurious: bool): (r: (State, Outcome))
    requires 0 < capacity == |s.cells| == |s.turn| == |s.owner|
  {
    match At(s, t)
    case PushLoad(v) => (Goto(s, t, PushCheck(v, s.enq)), Running)
    case PushCheck(v, pos) =>
      var difference := s.cells[Slot(capacity, pos)].sequence - pos;
      if difference == 0 then (Goto(s, t, PushCas(v, pos)), Running)
      else if difference < 0 then (Goto(s, t, Idle), Full)
      else (Goto(s, t, PushLoad(v)), Running)
    case PushCas(v, pos) =>
      if s.enq == pos && !spurious then (Reserved(capacity, s, t, v), Running)
      else (Goto(s, t, PushCheck(v, s.enq)), Running)
    case PushWrite(v, pos) =>
      var i := Slot(capacity, pos);
      (Touched(s, t, i, s.cells[i].(value := Some(v)), s.turn[i], PushPublish(v, pos)), Running)
    case PushPublish(v, pos) =>
      var i := Slot(capacity, pos);
      (Touched(s, t, i, s.cells[i].(sequence := pos + 1), s.turn[i], Idle), Pushed)
    case _ => (s, Running)
  }

  function PopStep(capacity: nat, s: State, t: Tid, spurious: bool): (r: (State, Outcome))
    requires 0 < capacity == |s.cells| == |s.turn| == |s.owner|
  {
    match At(s, t)
    case PopLoad => (Goto(s, t, PopCheck(s.deq)), Running)
    case PopCheck(pos) =>
      var difference := s.cells[Slot(capacity, pos)].sequence - (pos + 1);
      if difference == 0 then (Goto(s, t, PopCas(pos)), Running)
      else if difference < 0 then (Goto(s, t, Idle), Empty)
      else (Goto(s, t, PopLoad), Running)
    case PopCas(pos) =>
      if s.deq == pos && !spurious then (Claimed(capacity, s, t), Running)
      else (Goto(s, t, PopCheck(s.deq)), Running)
    case PopRead(pos) =>
      // Reading an empty cell would be undefined behaviour; `ReadsPublished` shows that it does not happen.
      var v := match s.cells[Slot(capacity, pos)].value case Some(v) => v case None => 0;
      (Taken(s, t, pos, v), Running)
    case PopDestroy(pos, v) =>
      var i := Slot(capacity, pos);
      (Touched(s, t, i, s.cells[i].(value := None), s.turn[i], PopRelease(pos, v)), Running)
    case PopRelease(pos, v) =>
      var i := Slot(capacity, pos);
      (Touched(s, t, i, s.cells[i].(sequence := pos + capacity), pos + capacity, Idle), Popped(v))
    case _ => (s, Running)
  }

  function Step(capacity: nat, s: State, t: Tid, a: Action): (r: (State, Outcome))
    requires 0 < capacity == |s.cells| == |s.turn| == |s.owner|
    ensures |r.0.cells| == |r.0.turn| == |r.0.owner| == capacity
  {
    match a
    case StartPush(v) => (if At(s, t).Idle? then Goto(s, t, PushLoad(v)) else s, Running)
    case StartPop => (if At(s, t).Idle? then Goto(s, t, PopLoad) else s, Running)
    case Advance(spurious) =>
      match At(s, t)
      case Idle => (s, Running)
      case PushLoad(_) | PushCheck(_, _) | PushCas(_, _) | PushWrite(_, _) | PushPublish(_, _) =>
        PushStep(capacity, s, t, spurious)
      case _ => PopStep(capacity, s, t, spurious)
  }

  /** The state after any run: `run` names the thread and the step at each point. */
  function Exec(capacity: nat, run: seq<(Tid, Action)>): (s: State)
    requires 0 < capacity
    ensures |s.cells| == |s.turn| == |s.owner| == capacity
  {
    if run == [] then Init(capacity)
    else
      var (t, a) := run[|run| - 1];
      Step(capacity, Exec(capacity, run[..|run| - 1]), t, a).0
  }

  // ----- The invariant -----

  predicate PushOwns(pc: Pc, pos: int) {
    (pc.PushWrite? || pc.PushPublish?) && pc.pos == pos
  }

  predicate PopOwns(pc: Pc, pos: int) {
    (pc.PopRead? || pc.PopDestroy? || pc.PopRelease?) && pc.pos == pos
  }

  ghost predicate CellOk(capacity: nat, s: State, i: nat)
    requires 0 < capacity == |s.cells| == |s.turn| == |s.owner| && i < capacity
  {
    var p, cell := s.turn[i], s.cells[i];
    && 0 <= p < s.deq + capacity && Slot(capacity, p) == i && s.enq - capacity <= p
    && (cell.sequence == p || cell.sequence == p + 1)
    && (cell.sequence == p && s.enq <= p ==> cell.value == None)
    && (cell.sequence == p && p < s.enq ==> s.deq <= p && PushOwns(At(s, s.owner[i]), p))
    && (cell.sequence == p + 1 ==> p < s.enq)
    && (cell.sequence == p + 1 && s.deq <= p < |s.reserved| ==> cell.value == Some(s.reserved[p]))
    && (cell.sequence == p + 1 && p < s.deq ==> PopOwns(At(s, s.owner[i]), p))
  }

  ghost predicate ThreadOk(capacity: nat, s: State, t: Tid)
    requires 0 < capacity == |s.cells| == |s.turn| == |s.owner|
  {
    match At(s, t)
    case PushCheck(_, pos) => pos <= s.enq
    case PushCas(_, pos) => pos <= s.enq && (pos == s.enq ==> s.cells[Slot(capacity, pos)].sequence == pos)
    case PushWrite(v, pos) =>
      var i := Slot(capacity, pos);
      pos < |s.reserved| && s.owner[i] == t && s.turn[i] == pos && s.reserved[pos] == v && s.cells[i] == Cell(pos, None)
    case PushPublish(v, pos) =>
      var i := Slot(capacity, pos);
      pos < |s.reserved| && s.owner[i] == t && s.turn[i] == pos && s.reserved[pos] == v &&
        s.cells[i] == Cell(pos, Some(v))
    case PopCheck(pos) => pos <= s.deq
    case PopCas(pos) => pos <= s.deq && (pos == s.deq ==> s.cells[Slot(capacity, pos)].sequence == pos + 1)
    case PopRead(pos) =>
      var i := Slot(capacity, pos);
      pos < s.deq && s.owner[i] == t && s.turn[i] == pos && pos !in s.popped
      && pos < |s.reserved| && s.cells[i] == Cell(pos + 1, Some(s.reserved[pos]))
    case PopDestroy(pos, v) =>
      var i := Slot(capacity, pos);
      pos < s.deq && s.owner[i] == t && s.turn[i] == pos && pos in s.popped && v == s.popped[pos]
      && s.cells[i] == Cell(pos + 1, Some(v))
    case PopRelease(pos, v) =>
      var i := Slot(capacity, pos);
      pos < s.deq && s.owner[i] == t && s.turn[i] == pos && pos in s.popped && v == s.popped[pos]
      && s.cells[i] == Cell(pos + 1, None)
    case _ => true
  }

  ghost predicate HistoryOk(capacity: nat, s: State)
    requires 0 < capacity == |s.cells| == |s.turn| == |s.owner|
  {
    && |s.reserved| == s.enq && s.deq <= s.enq <= s.deq + capacity
    && (forall p :: p in s.popped ==> p < s.deq && s.popped[p] == s.reserved[p])
    && (forall p: nat :: p < s.deq && p !in s.popped ==> At(s, s.owner[Slot(capacity, p)]) == PopRead(p))
  }

  ghost predicate Inv(capacity: nat, s: State) {
    && 0 < capacity == |s.cells| == |s.turn| == |s.owner|
    && HistoryOk(capacity, s)
    && (forall i: nat :: i < capacity ==> CellOk(capacity, s, i))
    && (forall t: Tid :: ThreadOk(capacity, s, t))
  }

  // ----- Slots -----

  lemma SlotApart(capacity: nat, p: int, q: int)
    requires 0 < capacity && p < q && Slot(capacity, p) == Slot(capacity, q)
    ensures p + capacity <= q
  {
    ModApart(capacity, p, q);
  }

  lemma SlotNext(capacity: nat, p: int)
    requires 2 <= capacity
    ensures Slot(capacity, p) != Slot(capacity, p + 1)
  {
    if Slot(capacity, p) == Slot(capacity, p + 1) {
      SlotApart(capacity, p, p + 1);
    }
  }

  lemma SlotAgain(capacity: nat, p: int)
    requires 0 < capacity
    ensures Slot(capacity, p + capacity) == Slot(capacity, p)
  {
    ModAddMultiple(p, 1, capacity);
  }

  // ----- Every step keeps the invariant -----

  predicate Owns(pc: Pc) {
    pc.PushWrite? || pc.PushPublish? || pc.PopRead? || pc.PopDestroy? || pc.PopRelease?
  }

  lemma QuietStep(capacity: nat, s: State, t: Tid, pc: Pc)
    requires Inv(capacity, s) && !Owns(At(s, t)) && !Owns(pc) && ThreadOk(capacity, Goto(s, t, pc), t)
    ensures Inv(capacity, Goto(s, t, pc))
  {
    var s' := Goto(s, t, pc);
    forall i: nat | i < capacity ensures CellOk(capacity, s', i) {
      assert CellOk(capacity, s, i);
    }
    forall u: Tid ensures ThreadOk(capacity, s', u) {
      assert ThreadOk(capacity, s, u);
    }
  }

  /** A cell whose sequence is the next position to reserve serves that position and is empty. */
  lemma FreeCell(capacity: nat, s: State, i: nat)
    requires 2 <= capacity && Inv(capacity, s) && i == Slot(capacity, s.enq) && s.cells[i].sequence == s.enq
    ensures s.turn[i] == s.enq && s.cells[i].value == None
  {
    assert CellOk(capacity, s, i);
    if s.cells[i].sequence == s.turn[i] + 1 {
      SlotNext(capacity, s.turn[i]);
    }
  }

  lemma ReservedCell(capacity: nat, s: State, t: Tid, v: Value, i: nat)
    requires 2 <= capacity && Inv(capacity, s) && At(s, t) == PushCas(v, s.enq) && i < capacity
    ensures CellOk(capacity, Reserved(capacity, s, t, v), i)
  {
    var k := Slot(capacity, s.enq);
    assert ThreadOk(capacity, s, t) && CellOk(capacity, s, i);
    FreeCell(capacity, s, k);
    if s.turn[i] == s.enq - capacity {
      SlotAgain(capacity, s.enq - capacity);
    }
  }

  lemma ReservedThread(capacity: nat, s: State, t: Tid, v: Value, u: Tid)
    requires 2 <= capacity && Inv(capacity, s) && At(s, t) == PushCas(v, s.enq)
    ensures ThreadOk(capacity, Reserved(capacity, s, t, v), u)
  {
    assert ThreadOk(capacity, s, t) && ThreadOk(capacity, s, u);
    FreeCell(capacity, s, Slot(capacity, s.enq));
  }

  lemma Reserve(capacity: nat, s: State, t: Tid, v: Value)
    requires 2 <= capacity && Inv(capacity, s) && At(s, t) == PushCas(v, s.enq)
    ensures Inv(capacity, Reserved(capacity, s, t, v))
  {
    assert ThreadOk(capacity, s, t) && CellOk(capacity, s, Slot(capacity, s.enq));
    FreeCell(capacity, s, Slot(capacity, s.enq));
    var s' := Reserved(capacity, s, t, v);
    forall i: nat | i < capacity ensures CellOk(capacity, s', i) {
      ReservedCell(capacity, s, t, v, i);
    }
    forall u: Tid ensures ThreadOk(capacity, s', u) {
      ReservedThread(capacity, s, t, v, u);
    }
    forall p: nat | p < s.deq && p !in s.popped ensures At(s', s'.owner[Slot(capacity, p)]) == PopRead(p) {
      assert ThreadOk(capacity, s, s.owner[Slot(capacity, p)]);
    }
  }

  /** What any thread may rely on is not in a cell that another thread owns. */
  lemma OwnedCell(capacity: nat, s: State, t: Tid, i: nat)
    requires 2 <= capacity && Inv(capacity, s) && i < capacity && s.owner[i] == t
    requires PushOwns(At(s, t), s.turn[i]) || PopOwns(At(s, t), s.turn[i])
    ensures i == Slot(capacity, s.enq) ==> s.cells[i].sequence != s.enq
    ensures i == Slot(capacity, s.deq) ==> s.cells[i].sequence != s.deq + 1
  {
    assert ThreadOk(capacity, s, t) && CellOk(capacity, s, i);
    if i == Slot(capacity, s.enq) && s.cells[i].sequence == s.enq {
      FreeCell(capacity, s, i);
    }
    SlotNext(capacity, s.deq);
  }

  lemma OwnerThread(capacity: nat, s: State, t: Tid, i: nat, cell: Cell, turn: int, pc: Pc, u: Tid)
    requires 2 <= capacity && Inv(capacity, s) && i < capacity && s.owner[i] == t && u != t
    requires PushOwns(At(s, t), s.turn[i]) || PopOwns(At(s, t), s.turn[i])
    ensures ThreadOk(capacity, Touched(s, t, i, cell, turn, pc), u)
  {
    assert ThreadOk(capacity, s, u);
    OwnedCell(capacity, s, t, i);
  }

  /** The owner of a cell may change it as long as what it leaves behind is in order. */
  lemma OwnerStep(capacity: nat, s: State, t: Tid, i: nat, cell: Cell, turn: int, pc: Pc)
    requires 2 <= capacity && Inv(capacity, s) && i < capacity && s.owner[i] == t
    requires PushOwns(At(s, t), s.turn[i]) || PopOwns(At(s, t), s.turn[i])
    requires !At(s, t).PopRead?
    requires CellOk(capacity, Touched(s, t, i, cell, turn, pc), i) &&
      ThreadOk(capacity, Touched(s, t, i, cell, turn, pc), t)
    ensures Inv(capacity, Touched(s, t, i, cell, turn, pc))
  {
    var s' := Touched(s, t, i, cell, turn, pc);
    forall j: nat | j < capacity ensures CellOk(capacity, s', j) {
      assert CellOk(capacity, s, j) && CellOk(capacity, s, i);
    }
    forall u: Tid ensures ThreadOk(capacity, s', u) {
      if u != t {
        OwnerThread(capacity, s, t, i, cell, turn, pc, u);
      }
    }
  }

  lemma Write(capacity: nat, s: State, t: Tid, v: Value, pos: nat)
    requires 2 <= capacity && Inv(capacity, s) && At(s, t) == PushWrite(v, pos)
    ensures var i := Slot(capacity, pos);
      Inv(capacity, Touched(s, t, i, s.cells[i].(value := Some(v)), s.turn[i], PushPublish(v, pos)))
  {
    var i := Slot(capacity, pos);
    assert ThreadOk(capacity, s, t) && CellOk(capacity, s, i);
    OwnerStep(capacity, s, t, i, s.cells[i].(value := Some(v)), s.turn[i], PushPublish(v, pos));
  }

  lemma Publish(capacity: nat, s: State, t: Tid, v: Value, pos: nat)
    requires 2 <= capacity && Inv(capacity, s) && At(s, t) == PushPublish(v, pos)
    ensures var i := Slot(capacity, pos);
      Inv(capacity, Touched(s, t, i, s.cells[i].(sequence := pos + 1), s.turn[i], Idle))
  {
    var i := Slot(capacity, pos);
    assert ThreadOk(capacity, s, t) && CellOk(capacity, s, i);
    OwnerStep(capacity, s, t, i, s.cells[i].(sequence := pos + 1), s.turn[i], Idle);
  }

  lemma Destroy(capacity: nat, s: State, t: Tid, v: Value, pos: nat)
    requires 2 <= capacity && Inv(capacity, s) && At(s, t) == PopDestroy(pos, v)
    ensures var i := Slot(capacity, pos);
      Inv(capacity, Touched(s, t, i, s.cells[i].(value := None), s.turn[i], PopRelease(pos, v)))
  {
    var i := Slot(capacity, pos);
    assert ThreadOk(capacity, s, t) && CellOk(capacity, s, i);
    OwnerStep(capacity, s, t, i, s.cells[i].(value := None), s.turn[i], PopRelease(pos, v));
  }

  lemma Release(capacity: nat, s: State, t: Tid, v: Value, pos: nat)
    requires 2 <= capacity && Inv(capacity, s) && At(s, t) == PopRelease(pos, v)
    ensures var i := Slot(capacity, pos);
      Inv(capacity, Touched(s, t, i, s.cells[i].(sequence := pos + capacity), pos + capacity, Idle))
  {
    var i := Slot(capacity, pos);
    assert ThreadOk(capacity, s, t) && CellOk(capacity, s, i);
    SlotAgain(capacity, pos);
    OwnerStep(capacity, s, t, i, s.cells[i].(sequence := pos + capacity), pos + capacity, Idle);
  }

  /** A cell whose sequence is just past the next position to pop holds that position's value and nobody owns it. */
  lemma FullCell(capacity: nat, s: State, i: nat)
    requires 2 <= capacity && Inv(capacity, s) && i == Slot(capacity, s.deq) && s.cells[i].sequence == s.deq + 1
    ensures s.turn[i] == s.deq < s.enq && s.cells[i].value == Some(s.reserved[s.deq])
  {
    assert CellOk(capacity, s, i);
    SlotNext(capacity, s.deq);
  }

  lemma ClaimedThread(capacity: nat, s: State, t: Tid, u: Tid)
    requires 2 <= capacity && Inv(capacity, s) && At(s, t) == PopCas(s.deq)
    ensures ThreadOk(capacity, Claimed(capacity, s, t), u)
  {
    assert ThreadOk(capacity, s, t) && ThreadOk(capacity, s, u);
    FullCell(capacity, s, Slot(capacity, s.deq));
  }

  lemma Claim(capacity: nat, s: State, t: Tid)
    requires 2 <= capacity && Inv(capacity, s) && At(s, t) == PopCas(s.deq)
    ensures Inv(capacity, Claimed(capacity, s, t))
  {
    assert ThreadOk(capacity, s, t);
    FullCell(capacity, s, Slot(capacity, s.deq));
    var s' := Claimed(capacity, s, t);
    forall i: nat | i < capacity ensures CellOk(capacity, s', i) {
      assert CellOk(capacity, s, i);
    }
    forall u: Tid ensures ThreadOk(capacity, s', u) {
      ClaimedThread(capacity, s, t, u);
    }
    forall p: nat | p < s.deq && p !in s.popped ensures At(s', s'.owner[Slot(capacity, p)]) == PopRead(p) {
      assert ThreadOk(capacity, s, s.owner[Slot(capacity, p)]);
    }
  }

  lemma Read(capacity: nat, s: State, t: Tid, pos: nat)
    requires 2 <= capacity && Inv(capacity, s) && At(s, t) == PopRead(pos)
    ensures pos < |s.reserved| && s.cells[Slot(capacity, pos)].value == Some(s.reserved[pos])
    ensures Inv(capacity, Taken(s, t, pos, s.reserved[pos]))
  {
    assert ThreadOk(capacity, s, t);
    var s' := Taken(s, t, pos, s.reserved[pos]);
    forall i: nat | i < capacity ensures CellOk(capacity, s', i) {
      assert CellOk(capacity, s, i);
    }
    forall u: Tid ensures ThreadOk(capacity, s', u) {
      assert ThreadOk(capacity, s, u);
    }
  }

  lemma PushStepInv(capacity: nat, s: State, t: Tid, spurious: bool)
    requires 2 <= capacity && Inv(capacity, s)
    ensures Inv(capacity, PushStep(capacity, s, t, spurious).0)
  {
    assert ThreadOk(capacity, s, t);
    match At(s, t)
    case PushLoad(v) => QuietStep(capacity, s, t, PushCheck(v, s.enq));
    case PushCheck(v, pos) =>
      var difference := s.cells[Slot(capacity, pos)].sequence - pos;
      var next := if difference == 0 then PushCas(v, pos) else if difference < 0 then Idle else PushLoad(v);
      QuietStep(capacity, s, t, next);
    case PushCas(v, pos) =>
      if s.enq == pos && !spurious {
        Reserve(capacity, s, t, v);
      } else {
        QuietStep(capacity, s, t, PushCheck(v, s.enq));
      }
    case PushWrite(v, pos) => Write(capacity, s, t, v, pos);
    case PushPublish(v, pos) => Publish(capacity, s, t, v, pos);
    case _ =>
  }

  lemma PopApproachInv(capacity: nat, s: State, t: Tid, spurious: bool)
    requires 2 <= capacity && Inv(capacity, s) && (At(s, t).PopLoad? || At(s, t).PopCheck? || At(s, t).PopCas?)
    ensures Inv(capacity, PopStep(capacity, s, t, spurious).0)
  {
    assert ThreadOk(capacity, s, t);
    match At(s, t)
    case PopLoad => QuietStep(capacity, s, t, PopCheck(s.deq));
    case PopCheck(pos) =>
      var difference := s.cells[Slot(capacity, pos)].sequence - (pos + 1);
      QuietStep(capacity, s, t, if difference == 0 then PopCas(pos) else if difference < 0 then Idle else PopLoad);
    case PopCas(pos) =>
      if s.deq == pos && !spurious {
        Claim(capacity, s, t);
      } else {
        QuietStep(capacity, s, t, PopCheck(s.deq));
      }
  }

  lemma PopStepInv(capacity: nat, s: State, t: Tid, spurious: bool)
    requires 2 <= capacity && Inv(capacity, s)
    ensures Inv(capacity, PopStep(capacity, s, t, spurious).0)
  {
    match At(s, t)
    case PopRead(pos) => Read(capacity, s, t, pos);
    case PopDestroy(pos, v) => Destroy(capacity, s, t, v, pos);
    case PopRelease(pos, v) => Release(capacity, s, t, v, pos);
    case PopLoad | PopCheck(_) | PopCas(_) => PopApproachInv(capacity, s, t, spurious);
    case _ =>
  }

  lemma StepInv(capacity: nat, s: State, t: Tid, a: Action)
    requires 2 <= capacity && Inv(capacity, s)
    ensures Inv(capacity, Step(capacity, s, t, a).0)
  {
    assert ThreadOk(capacity, s, t);
    match a
    case StartPush(v) =>
      if At(s, t).Idle? {
        QuietStep(capacity, s, t, PushLoad(v));
      }
    case StartPop =>
      if At(s, t).Idle? {
        QuietStep(capacity, s, t, PopLoad);
      }
    case Advance(spurious) =>
      PushStepInv(capacity, s, t, spurious);
      PopStepInv(capacity, s, t, spurious);
  }

  lemma InitInv(capacity: nat)
    requires 0 < capacity
    ensures Inv(capacity, Init(capacity))
  {
    var s := Init(capacity);
    forall i: nat | i < capacity ensures CellOk(capacity, s, i) {
      ModUnique(i, 0, capacity, i);
    }
  }

  /** Every reachable state of a queue of capacity at least two satisfies the invariant. */
  lemma {:induction false} ExecInv(capacity: nat, run: seq<(Tid, Action)>)
    requires 2 <= capacity
    ensures Inv(capacity, Exec(capacity, run))
  {
    if run == [] {
      InitInv(capacity);
    } else {
      var (t, a) := run[|run| - 1];
      ExecInv(capacity, run[..|run| - 1]);
      StepInv(capacity, Exec(capacity, run[..|run| - 1]), t, a);
    }
  }

  // ----- What the queue promises -----

  /** Every unpopped position that no push is still working on is intact: its cell is published and holds its value. */
  ghost predicate Intact(capacity: nat, s: State)
    requires 0 < capacity == |s.cells|
  {
    forall p: nat :: s.deq <= p < s.enq && p < |s.reserved| && (forall t: Tid :: !PushOwns(At(s, t), p)) ==>
      s.cells[Slot(capacity, p)] == Cell(p + 1, Some(s.reserved[p]))
  }

  lemma HeldCell(capacity: nat, s: State, p: nat)
    requires 2 <= capacity && Inv(capacity, s) && s.deq <= p < s.enq
    ensures s.turn[Slot(capacity, p)] == p
  {
    var i := Slot(capacity, p);
    assert CellOk(capacity, s, i);
    if s.turn[i] < p {
      SlotApart(capacity, s.turn[i], p);
    } else if p < s.turn[i] {
      SlotApart(capacity, p, s.turn[i]);
    }
  }

  lemma InvIntact(capacity: nat, s: State)
    requires 2 <= capacity && Inv(capacity, s)
    ensures Intact(capacity, s)
  {
    forall p: nat | s.deq <= p < s.enq && (forall t: Tid :: !PushOwns(At(s, t), p))
      ensures s.cells[Slot(capacity, p)] == Cell(p + 1, Some(s.reserved[p]))
    {
      HeldCell(capacity, s, p);
      assert CellOk(capacity, s, Slot(capacity, p));
    }
  }

  /**
   Popped values are the pushed values by reservation order, each position at most once, and a position that has been
   claimed but not yet read is about to be read by the thread that claimed it.
   */
  lemma PoppedInOrder(capacity: nat, run: seq<(Tid, Action)>, p: nat)
    requires 2 <= capacity
    ensures var s := Exec(capacity, run);
      && |s.reserved| == s.enq && s.deq <= s.enq <= s.deq + capacity
      && (p in s.popped ==> p < s.deq && s.popped[p] == s.reserved[p])
      && (p < s.deq && p !in s.popped ==> exists t: Tid :: At(s, t) == PopRead(p))
  {
    ExecInv(capacity, run);
  }

  /** A pop reads a published cell, and the value it returns is the one pushed at its position. */
  lemma ReadsPublished(capacity: nat, run: seq<(Tid, Action)>, t: Tid, pos: nat)
    requires 2 <= capacity && At(Exec(capacity, run), t) == PopRead(pos)
    ensures var s := Exec(capacity, run);
      && pos < |s.reserved| && s.cells[Slot(capacity, pos)] == Cell(pos + 1, Some(s.reserved[pos]))
      && (forall u: Tid :: !PushOwns(At(s, u), pos))
  {
    ExecInv(capacity, run);
    var s := Exec(capacity, run);
    assert ThreadOk(capacity, s, t);
    forall u: Tid ensures !PushOwns(At(s, u), pos) {
      assert ThreadOk(capacity, s, u);
    }
  }

  lemma FreeToWrite(capacity: nat, s: State, t: Tid, v: Value, pos: nat)
    requires 2 <= capacity && Inv(capacity, s) && At(s, t) == PushWrite(v, pos)
    ensures s.cells[Slot(capacity, pos)].value == None
    ensures capacity <= pos ==> pos - capacity in s.popped
    ensures forall u: Tid :: !PopOwns(At(s, u), pos - capacity)
  {
    assert ThreadOk(capacity, s, t) && CellOk(capacity, s, Slot(capacity, pos));
    SlotAgain(capacity, pos - capacity);
    forall u: Tid ensures !PopOwns(At(s, u), pos - capacity) {
      assert ThreadOk(capacity, s, u);
    }
  }

  /** A push writes into an empty cell, after the pop of the position that used the cell before has read it. */
  lemma WritesFree(capacity: nat, run: seq<(Tid, Action)>, t: Tid, v: Value, pos: nat)
    requires 2 <= capacity && At(Exec(capacity, run), t) == PushWrite(v, pos)
    ensures var s := Exec(capacity, run);
      && s.cells[Slot(capacity, pos)].value == None
      && (capacity <= pos ==> pos - capacity in s.popped)
      && (forall u: Tid :: !PopOwns(At(s, u), pos - capacity))
  {
    ExecInv(capacity, run);
    FreeToWrite(capacity, Exec(capacity, run), t, v, pos);
  }

  lemma FullMeans(capacity: nat, s: State, t: Tid, a: Action)
    requires 0 < capacity == |s.cells| == |s.turn| == |s.owner| && Step(capacity, s, t, a).1 == Full
    ensures At(s, t).PushCheck? && s.cells[Slot(capacity, At(s, t).pos)].sequence < At(s, t).pos
  {
  }

  lemma BlockedPush(capacity: nat, s: State, t: Tid, v: Value, pos: nat)
    requires 2 <= capacity && Inv(capacity, s) && At(s, t) == PushCheck(v, pos)
    requires s.cells[Slot(capacity, pos)].sequence < pos
    ensures s.enq - s.deq == capacity || PopOwns(At(s, s.owner[Slot(capacity, pos)]), s.enq - capacity)
  {
    var i := Slot(capacity, pos);
    assert ThreadOk(capacity, s, t) && CellOk(capacity, s, i);
    SlotApart(capacity, s.turn[i], pos);
  }

  lemma FullAt(capacity: nat, s: State, t: Tid, a: Action) returns (u: Tid)
    requires 2 <= capacity && Inv(capacity, s) && Step(capacity, s, t, a).1 == Full
    ensures s.enq - s.deq == capacity || PopOwns(At(s, u), s.enq - capacity)
  {
    FullMeans(capacity, s, t, a);
    var pc := At(s, t);
    u := s.owner[Slot(capacity, pc.pos)];
    BlockedPush(capacity, s, t, pc.v, pc.pos);
  }

  lemma FullAfter(capacity: nat, run: seq<(Tid, Action)>, t: Tid, a: Action) returns (u: Tid)
    requires 2 <= capacity && Step(capacity, Exec(capacity, run), t, a).1 == Full
    ensures var s := Exec(capacity, run); s.enq - s.deq == capacity || PopOwns(At(s, u), s.enq - capacity)
  {
    ExecInv(capacity, run);
    u := FullAt(capacity, Exec(capacity, run), t, a);
  }

  /**
   `kFull` is reported only when all positions are held or the pop that blocks the next position is still in
   progress.
   */
  lemma FullReport(capacity: nat, run: seq<(Tid, Action)>, t: Tid, a: Action)
    requires 2 <= capacity && Step(capacity, Exec(capacity, run), t, a).1 == Full
    ensures var s := Exec(capacity, run);
      s.enq - s.deq == capacity || exists u: Tid :: PopOwns(At(s, u), s.enq - capacity)
  {
    var u := FullAfter(capacity, run, t, a);
  }

  lemma BlockedPop(capacity: nat, s: State, t: Tid, pos: nat)
    requires 2 <= capacity && Inv(capacity, s) && At(s, t) == PopCheck(pos)
    requires s.cells[Slot(capacity, pos)].sequence <= pos
    ensures s.enq == s.deq || PushOwns(At(s, s.owner[Slot(capacity, pos)]), s.deq)
  {
    var i := Slot(capacity, pos);
    assert ThreadOk(capacity, s, t) && CellOk(capacity, s, i);
    if s.turn[i] < pos {
      SlotApart(capacity, s.turn[i], pos);
    }
  }

  /**
   An empty pop is reported only when nothing is held or the push of the next position to pop is still in progress.
   */
  lemma EmptyReport(capacity: nat, run: seq<(Tid, Action)>, t: Tid, a: Action)
    requires 2 <= capacity && Step(capacity, Exec(capacity, run), t, a).1 == Empty
    ensures var s := Exec(capacity, run);
      s.enq == s.deq || exists u: Tid :: PushOwns(At(s, u), s.deq)
  {
    ExecInv(capacity, run);
    var s := Exec(capacity, run);
    BlockedPop(capacity, s, t, At(s, t).pos);
  }

  /** What a completed push or pop reports about is the value at its position. */
  lemma DoneReport(capacity: nat, run: seq<(Tid, Action)>, t: Tid, a: Action)
    requires 2 <= capacity
    ensures var s := Exec(capacity, run);
      var pc, done := At(s, t), Step(capacity, s, t, a).1;
      && (done == Pushed ==> pc.PushPublish? && pc.pos < |s.reserved| && s.reserved[pc.pos] == pc.v)
      && (done.Popped? ==> pc.PopRelease? && pc.pos < |s.reserved| && s.reserved[pc.pos] == done.v)
  {
    ExecInv(capacity, run);
    assert ThreadOk(capacity, Exec(capacity, run), t);
  }

  // ----- One consumer -----

  ghost predicate OnlyConsumer(run: seq<(Tid, Action)>, c: Tid) {
    forall i :: 0 <= i < |run| && run[i].1.StartPop? ==> run[i].0 == c
  }

  predicate Pops(pc: Pc) {
    pc.PopLoad? || pc.PopCheck? || pc.PopCas? || pc.PopRead? || pc.PopDestroy? || pc.PopRelease?
  }

  ghost predicate Alone(s: State, c: Tid) {
    && (forall t: Tid :: t != c ==> !Pops(At(s, t)))
    && (forall p: nat :: PopOwns(At(s, c), p) ==> p == s.deq - 1)
  }

  lemma StepAlone(capacity: nat, s: State, c: Tid, t: Tid, a: Action)
    requires 2 <= capacity == |s.cells| == |s.turn| == |s.owner| && Alone(s, c) && (a.StartPop? ==> t == c)
    ensures Alone(Step(capacity, s, t, a).0, c)
  {
    var s' := Step(capacity, s, t, a).0;
    assert t != c ==> !Pops(At(s, t));
    forall u: Tid | u != c ensures !Pops(At(s', u)) {
      assert !Pops(At(s, u));
    }
    forall p: nat | PopOwns(At(s', c), p) ensures p == s'.deq - 1 {
      assert PopOwns(At(s, c), p) ==> p == s.deq - 1;
    }
  }

  lemma {:induction false} ExecAlone(capacity: nat, run: seq<(Tid, Action)>, c: Tid)
    requires 2 <= capacity && OnlyConsumer(run, c)
    ensures Alone(Exec(capacity, run), c)
  {
    if run != [] {
      var r := run[..|run| - 1];
      assert OnlyConsumer(r, c);
      ExecAlone(capacity, r, c);
      StepAlone(capacity, Exec(capacity, r), c, run[|run| - 1].0, run[|run| - 1].1);
    }
  }

  /**
   With one consumer the values come out as a prefix of the reservation order: the first `|popped|` reserved values.
   */
  lemma OneConsumerFifo(capacity: nat, run: seq<(Tid, Action)>, c: Tid, p: nat)
    requires 2 <= capacity && OnlyConsumer(run, c)
    ensures var s := Exec(capacity, run);
      var n := if At(s, c).PopRead? then s.deq - 1 else s.deq;
      && 0 <= n <= |s.reserved|
      && (p in s.popped <==> p < n)
      && (p in s.popped ==> s.popped[p] == s.reserved[p])
  {
    ExecInv(capacity, run);
    ExecAlone(capacity, run, c);
    var s := Exec(capacity, run);
    assert ThreadOk(capacity, s, c);
    if p < s.deq && p !in s.popped {
      var t := s.owner[Slot(capacity, p)];
      assert At(s, t) == PopRead(p);
      assert t == c && PopOwns(At(s, c), p);
    }
    if At(s, c).PopRead? {
      assert PopOwns(At(s, c), At(s, c).pos);
    }
  }

  // ----- Capacity one -----

  lemma ExecMore(capacity: nat, run: seq<(Tid, Action)>, t: Tid, a: Action)
    requires 0 < capacity
    ensures Exec(capacity, run + [(t, a)]) == Step(capacity, Exec(capacity, run), t, a).0
  {
    assert (run + [(t, a)])[..|run|] == run;
  }

  /** The six states that an undisturbed push passes through. */
  lemma LoneSteps(s: State, v: Value) returns (s1: State, s2: State, s3: State, s4: State, s5: State, s6: State)
    requires |s.cells| == |s.turn| == |s.owner| == 1 && At(s, 0) == Idle && s.cells[0].sequence == s.enq
    ensures s1 == Step(1, s, 0, StartPush(v)).0 && |s1.cells| == |s1.turn| == |s1.owner| == 1
    ensures s2 == Step(1, s1, 0, Advance(false)).0 && |s2.cells| == |s2.turn| == |s2.owner| == 1
    ensures s3 == Step(1, s2, 0, Advance(false)).0 && |s3.cells| == |s3.turn| == |s3.owner| == 1
    ensures s4 == Step(1, s3, 0, Advance(false)).0 && |s4.cells| == |s4.turn| == |s4.owner| == 1
    ensures s5 == Step(1, s4, 0, Advance(false)).0 && |s5.cells| == |s5.turn| == |s5.owner| == 1
    ensures s6 == Step(1, s5, 0, Advance(false)).0
    ensures At(s6, 0) == Idle && s6.enq == s.enq + 1 && s6.deq == s.deq && s6.reserved == s.reserved + [v]
    ensures s6.cells == [Cell(s.enq + 1, Some(v))] && (forall t: Tid :: t != 0 ==> At(s6, t) == At(s, t))
  {
    ModUnique(s.enq, s.enq, 1, 0);
    s1 := Step(1, s, 0, StartPush(v)).0;
    assert At(s1, 0) == PushLoad(v);
    s2 := Step(1, s1, 0, Advance(false)).0;
    assert At(s2, 0) == PushCheck(v, s.enq);
    s3 := Step(1, s2, 0, Advance(false)).0;
    assert At(s3, 0) == PushCas(v, s.enq);
    s4 := Step(1, s3, 0, Advance(false)).0;
    assert At(s4, 0) == PushWrite(v, s.enq);
    s5 := Step(1, s4, 0, Advance(false)).0;
    assert At(s5, 0) == PushPublish(v, s.enq);
    s6 := Step(1, s5, 0, Advance(false)).0;
  }

  lemma LonePush(run: seq<(Tid, Action)>, v: Value) returns (run': seq<(Tid, Action)>)
    requires var s := Exec(1, run); At(s, 0) == Idle && s.cells[0].sequence == s.enq
    ensures var (s, s') := (Exec(1, run), Exec(1, run'));
      && At(s', 0) == Idle && s'.enq == s.enq + 1 && s'.deq == s.deq && s'.reserved == s.reserved + [v]
      && s'.cells == [Cell(s.enq + 1, Some(v))] && (forall t: Tid :: t != 0 ==> At(s', t) == At(s, t))
  {
    var s1, s2, s3, s4, s5, s6 := LoneSteps(Exec(1, run), v);
    ExecMore(1, run, 0, StartPush(v));
    run' := run + [(0, StartPush(v))];
    ExecMore(1, run', 0, Advance(false));
    run' := run' + [(0, Advance(false))];
    ExecMore(1, run', 0, Advance(false));
    run' := run' + [(0, Advance(false))];
    ExecMore(1, run', 0, Advance(false));
    run' := run' + [(0, Advance(false))];
    ExecMore(1, run', 0, Advance(false));
    run' := run' + [(0, Advance(false))];
    ExecMore(1, run', 0, Advance(false));
    run' := run' + [(0, Advance(false))];
  }

  /**
   With capacity one, "published at position 0" and "free for position 1" are the same sequence number: a second push
   overwrites the first value before anybody has popped it.
   */
  lemma CapacityOneLosesValue()
    ensures exists run: seq<(Tid, Action)> :: !Intact(1, Exec(1, run))
  {
    var run1 := LonePush([], 10);
    var run2 := LonePush(run1, 20);
    var s := Exec(1, run2);
    assert s.reserved == [10, 20] && s.deq == 0 && s.enq == 2;
    assert forall t: Tid :: !PushOwns(At(s, t), 0);
    assert s.cells[Slot(1, 0)] != Cell(1, Some(10));
    assert !Intact(1, s);
  }

  /** No run loses a value exactly when the capacity is at least two. */
  lemma IntactIffCapacity(capacity: nat)
    requires 0 < capacity
    ensures (forall run: seq<(Tid, Action)> :: Intact(capacity, Exec(capacity, run))) <==> 2 <= capacity
  {
    if 2 <= capacity {
      forall run: seq<(Tid, Action)> ensures Intact(capacity, Exec(capacity, run)) {
        ExecInv(capacity, run);
        InvIntact(capacity, Exec(capacity, run));
      }
    } else {
      CapacityOneLosesValue();
    }
  }
}
