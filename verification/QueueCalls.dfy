/**
 Calls of the bounded queue that nobody interrupts: they do what they are asked whenever it can be done.
 */
module QueueCalls {

  import opened BoundedQueue
  import opened Options

  ghost predicate Sized(capacity: nat, s: State) {
    0 < capacity == |s.cells| == |s.turn| == |s.owner|
  }

  /** Thread `t` takes `n` steps, at least one, and nobody else any: the state then, and what the last step reports. */
  function Alone(capacity: nat, s: State, t: Tid, n: nat): (State, Outcome)
    requires 0 < capacity == |s.cells| == |s.turn| == |s.owner|
    decreases n
  {
    var r := Step(capacity, s, t, Advance(false));
    if n <= 1 then r else Alone(capacity, r.0, t, n - 1)
  }

  /** Nothing has changed, except perhaps where the thread is. */
  ghost predicate SameQueue(s: State, s': State, t: Tid) {
    && s'.enq == s.enq && s'.deq == s.deq && s'.cells == s.cells && s'.reserved == s.reserved && s'.popped == s.popped
    && forall u: Tid :: u != t ==> At(s', u) == At(s, u)
  }

  // ----- Pushing -----

  /** There is a free position, and the pop that used its cell before is over. */
  ghost predicate Room(capacity: nat, s: State) {
    s.enq - s.deq < capacity && forall u: Tid :: !PopOwns(At(s, u), s.enq - capacity)
  }

  /** The cell of the next position to push is free for it, or still serves the position one round before. */
  lemma NextCell(capacity: nat, s: State)
    requires 2 <= capacity && Inv(capacity, s)
    ensures var i := Slot(capacity, s.enq);
      if s.turn[i] == s.enq then s.cells[i].sequence == s.enq && s.enq - s.deq < capacity
      else s.turn[i] == s.enq - capacity && s.cells[i].sequence < s.enq
  {
    var i := Slot(capacity, s.enq);
    assert CellOk(capacity, s, i);
    if s.turn[i] < s.enq {
      SlotApart(capacity, s.turn[i], s.enq);
    } else if s.turn[i] > s.enq {
      SlotApart(capacity, s.enq, s.turn[i]);
    }
  }

  /** A pop that is not over keeps the cell of its position. */
  lemma PopKeepsCell(capacity: nat, s: State, u: Tid, pos: nat)
    requires 2 <= capacity && Inv(capacity, s) && PopOwns(At(s, u), pos)
    ensures s.turn[Slot(capacity, pos)] == pos
  {
    assert ThreadOk(capacity, s, u);
  }

  lemma RoomIs(capacity: nat, s: State)
    requires 2 <= capacity && Inv(capacity, s)
    ensures s.cells[Slot(capacity, s.enq)].sequence <= s.enq
    ensures Room(capacity, s) <==> s.cells[Slot(capacity, s.enq)].sequence == s.enq
  {
    var i := Slot(capacity, s.enq);
    NextCell(capacity, s);
    if s.turn[i] == s.enq {
      forall u: Tid ensures !PopOwns(At(s, u), s.enq - capacity) {
        if PopOwns(At(s, u), s.enq - capacity) {
          PopKeepsCell(capacity, s, u, s.enq - capacity);
          SlotAgain(capacity, s.enq - capacity);
        }
      }
    } else if s.enq - s.deq < capacity {
      assert CellOk(capacity, s, i);
      assert PopOwns(At(s, s.owner[i]), s.enq - capacity);
    }
  }

  /** The states of a push from the reservation on. */
  lemma PushAlone(capacity: nat, s: State, t: Tid, v: Value) returns (s1: State, s2: State, s3: State)
    requires Sized(capacity, s) && At(s, t) == PushCas(v, s.enq)
    ensures Sized(capacity, s1) && s1 == Step(capacity, s, t, Advance(false)).0
    ensures Sized(capacity, s2) && s2 == Step(capacity, s1, t, Advance(false)).0
    ensures Step(capacity, s2, t, Advance(false)) == (s3, Pushed)
    ensures At(s3, t) == Idle && s3.enq == s.enq + 1 && s3.deq == s.deq && s3.reserved == s.reserved + [v]
    ensures s3.cells == s.cells[Slot(capacity, s.enq) := Cell(s.enq + 1, Some(v))]
    ensures forall u: Tid :: u != t ==> At(s3, u) == At(s, u)
  {
    s1 := Step(capacity, s, t, Advance(false)).0;
    assert At(s1, t) == PushWrite(v, s.enq);
    s2 := Step(capacity, s1, t, Advance(false)).0;
    assert At(s2, t) == PushPublish(v, s.enq);
    s3 := Step(capacity, s2, t, Advance(false)).0;
  }

  lemma PushEnds(capacity: nat, s: State, t: Tid, v: Value)
    requires Sized(capacity, s) && At(s, t) == PushCas(v, s.enq)
    ensures var (s', done) := Alone(capacity, s, t, 3);
      && done == Pushed && At(s', t) == Idle && s'.deq == s.deq && s'.reserved == s.reserved + [v]
      && s'.cells == s.cells[Slot(capacity, s.enq) := Cell(s.enq + 1, Some(v))]
      && forall u: Tid :: u != t ==> At(s', u) == At(s, u)
  {
    var s1, s2, s3 := PushAlone(capacity, s, t, v);
    assert Alone(capacity, s2, t, 1) == (s3, Pushed);
    assert Alone(capacity, s1, t, 2) == (s3, Pushed);
  }

  lemma PushLoads(capacity: nat, s: State, t: Tid, v: Value) returns (s1: State)
    requires Sized(capacity, s) && At(s, t) == PushLoad(v)
    ensures Sized(capacity, s1) && s1 == Step(capacity, s, t, Advance(false)).0
    ensures SameQueue(s, s1, t) && At(s1, t) == PushCheck(v, s.enq)
  {
    s1 := Step(capacity, s, t, Advance(false)).0;
  }

  /** Looking at the cell of the next position decides. */
  lemma PushLooks(capacity: nat, s: State, t: Tid, v: Value) returns (s1: State)
    requires Sized(capacity, s) && At(s, t) == PushCheck(v, s.enq)
    requires s.cells[Slot(capacity, s.enq)].sequence <= s.enq
    ensures Sized(capacity, s1) && SameQueue(s, s1, t)
    ensures if s.cells[Slot(capacity, s.enq)].sequence == s.enq
      then Step(capacity, s, t, Advance(false)).0 == s1 && At(s1, t) == PushCas(v, s.enq)
      else Step(capacity, s, t, Advance(false)) == (s1, Full) && At(s1, t) == Idle
  {
    s1 := Step(capacity, s, t, Advance(false)).0;
  }

  lemma StartsPush(capacity: nat, s: State, t: Tid, v: Value) returns (s1: State)
    requires Sized(capacity, s) && At(s, t) == Idle
    ensures Sized(capacity, s1) && s1 == Step(capacity, s, t, StartPush(v)).0
    ensures SameQueue(s, s1, t) && At(s1, t) == PushLoad(v)
  {
    s1 := Step(capacity, s, t, StartPush(v)).0;
  }

  /**
   A push started now and not interrupted goes through exactly if there is room: its value is the next to be reserved,
   and in its cell. Otherwise it reports that the queue is full and has changed nothing.
   */
  ghost predicate PushAnswers(capacity: nat, s: State, t: Tid, v: Value)
    requires Sized(capacity, s)
  {
    var started := Step(capacity, s, t, StartPush(v)).0;
    if Room(capacity, s) then
      var (s', done) := Alone(capacity, started, t, 5);
      && done == Pushed && s'.reserved == s.reserved + [v] && s'.deq == s.deq && At(s', t) == Idle
      && s'.cells == s.cells[Slot(capacity, s.enq) := Cell(s.enq + 1, Some(v))]
      && forall u: Tid :: u != t ==> At(s', u) == At(s, u)
    else
      var (s', done) := Alone(capacity, started, t, 2);
      done == Full && SameQueue(s, s', t) && At(s', t) == Idle
  }

  lemma PushCall(capacity: nat, s: State, t: Tid, v: Value)
    requires 2 <= capacity && Inv(capacity, s) && At(s, t) == Idle
    ensures PushAnswers(capacity, s, t, v)
  {
    RoomIs(capacity, s);
    var s1 := StartsPush(capacity, s, t, v);
    var s2 := PushLoads(capacity, s1, t, v);
    var s3 := PushLooks(capacity, s2, t, v);
    if Room(capacity, s) {
      PushEnds(capacity, s3, t, v);
      assert Alone(capacity, s2, t, 4) == Alone(capacity, s3, t, 3);
    } else {
      assert Alone(capacity, s2, t, 1) == (s3, Full);
    }
  }

  /** After every run a push that nobody interrupts does what it can. */
  lemma LoneTryPush(capacity: nat, run: seq<(Tid, Action)>, t: Tid, v: Value)
    requires 2 <= capacity && At(Exec(capacity, run), t) == Idle
    ensures PushAnswers(capacity, Exec(capacity, run), t, v)
  {
    ExecInv(capacity, run);
    PushCall(capacity, Exec(capacity, run), t, v);
  }

  // ----- Popping -----

  /** The next value to pop is there: its push is over. */
  ghost predicate Ready(s: State) {
    s.deq < s.enq && forall u: Tid :: !PushOwns(At(s, u), s.deq)
  }

  lemma ReadyIs(capacity: nat, s: State)
    requires 2 <= capacity && Inv(capacity, s)
    ensures s.cells[Slot(capacity, s.deq)].sequence <= s.deq + 1
    ensures Ready(s) <==> s.cells[Slot(capacity, s.deq)].sequence == s.deq + 1
  {
    var i := Slot(capacity, s.deq);
    assert CellOk(capacity, s, i);
    if s.turn[i] < s.deq {
      SlotApart(capacity, s.turn[i], s.deq);
    } else if s.turn[i] > s.deq {
      SlotApart(capacity, s.deq, s.turn[i]);
    }
    forall u: Tid | PushOwns(At(s, u), s.deq) ensures s.cells[i].sequence == s.deq {
      assert ThreadOk(capacity, s, u);
    }
  }

  /** The states of a pop from the claim on. */
  lemma PopAlone(capacity: nat, s: State, t: Tid, v: Value) returns (s1: State, s2: State, s3: State, s4: State)
    requires Sized(capacity, s) && At(s, t) == PopCas(s.deq) && s.cells[Slot(capacity, s.deq)].value == Some(v)
    ensures Sized(capacity, s1) && s1 == Step(capacity, s, t, Advance(false)).0
    ensures Sized(capacity, s2) && s2 == Step(capacity, s1, t, Advance(false)).0
    ensures Sized(capacity, s3) && s3 == Step(capacity, s2, t, Advance(false)).0
    ensures Step(capacity, s3, t, Advance(false)) == (s4, Popped(v))
    ensures At(s4, t) == Idle && s4.enq == s.enq && s4.deq == s.deq + 1 && s4.popped == s.popped[s.deq := v]
    ensures s4.cells == s.cells[Slot(capacity, s.deq) := Cell(s.deq + capacity, None)]
    ensures forall u: Tid :: u != t ==> At(s4, u) == At(s, u)
  {
    s1 := Step(capacity, s, t, Advance(false)).0;
    assert At(s1, t) == PopRead(s.deq);
    s2 := Step(capacity, s1, t, Advance(false)).0;
    assert At(s2, t) == PopDestroy(s.deq, v);
    s3 := Step(capacity, s2, t, Advance(false)).0;
    assert At(s3, t) == PopRelease(s.deq, v);
    s4 := Step(capacity, s3, t, Advance(false)).0;
  }

  lemma PopEnds(capacity: nat, s: State, t: Tid, v: Value)
    requires Sized(capacity, s) && At(s, t) == PopCas(s.deq) && s.cells[Slot(capacity, s.deq)].value == Some(v)
    ensures var (s', done) := Alone(capacity, s, t, 4);
      && done == Popped(v) && At(s', t) == Idle && s'.enq == s.enq && s'.deq == s.deq + 1
      && s'.cells == s.cells[Slot(capacity, s.deq) := Cell(s.deq + capacity, None)]
      && forall u: Tid :: u != t ==> At(s', u) == At(s, u)
  {
    var s1, s2, s3, s4 := PopAlone(capacity, s, t, v);
    assert Alone(capacity, s3, t, 1) == (s4, Popped(v));
    assert Alone(capacity, s2, t, 2) == (s4, Popped(v));
    assert Alone(capacity, s1, t, 3) == (s4, Popped(v));
  }

  lemma PopLoads(capacity: nat, s: State, t: Tid) returns (s1: State)
    requires Sized(capacity, s) && At(s, t) == PopLoad
    ensures Sized(capacity, s1) && s1 == Step(capacity, s, t, Advance(false)).0
    ensures SameQueue(s, s1, t) && At(s1, t) == PopCheck(s.deq)
  {
    s1 := Step(capacity, s, t, Advance(false)).0;
  }

  lemma PopLooks(capacity: nat, s: State, t: Tid) returns (s1: State)
    requires Sized(capacity, s) && At(s, t) == PopCheck(s.deq)
    requires s.cells[Slot(capacity, s.deq)].sequence <= s.deq + 1
    ensures Sized(capacity, s1) && SameQueue(s, s1, t)
    ensures if s.cells[Slot(capacity, s.deq)].sequence == s.deq + 1
      then Step(capacity, s, t, Advance(false)).0 == s1 && At(s1, t) == PopCas(s.deq)
      else Step(capacity, s, t, Advance(false)) == (s1, Empty) && At(s1, t) == Idle
  {
    s1 := Step(capacity, s, t, Advance(false)).0;
  }

  lemma StartsPop(capacity: nat, s: State, t: Tid) returns (s1: State)
    requires Sized(capacity, s) && At(s, t) == Idle
    ensures Sized(capacity, s1) && s1 == Step(capacity, s, t, StartPop).0
    ensures SameQueue(s, s1, t) && At(s1, t) == PopLoad
  {
    s1 := Step(capacity, s, t, StartPop).0;
  }

  /**
   A pop started now and not interrupted returns the oldest value exactly if the push of that value is over, and leaves
   its cell empty for the position one round later. Otherwise it reports that the queue is empty and has changed
   nothing.
   */
  ghost predicate PopAnswers(capacity: nat, s: State, t: Tid)
    requires Sized(capacity, s)
  {
    var started := Step(capacity, s, t, StartPop).0;
    if Ready(s) then
      var (s', done) := Alone(capacity, started, t, 6);
      && s.deq < |s.reserved| && done == Popped(s.reserved[s.deq])
      && s'.enq == s.enq && s'.deq == s.deq + 1 && At(s', t) == Idle
      && s'.cells == s.cells[Slot(capacity, s.deq) := Cell(s.deq + capacity, None)]
      && forall u: Tid :: u != t ==> At(s', u) == At(s, u)
    else
      var (s', done) := Alone(capacity, started, t, 2);
      done == Empty && SameQueue(s, s', t) && At(s', t) == Idle
  }

  lemma PopCall(capacity: nat, s: State, t: Tid)
    requires 2 <= capacity && Inv(capacity, s) && At(s, t) == Idle
    ensures PopAnswers(capacity, s, t)
  {
    ReadyIs(capacity, s);
    var s1 := StartsPop(capacity, s, t);
    var s2 := PopLoads(capacity, s1, t);
    var s3 := PopLooks(capacity, s2, t);
    if Ready(s) {
      InvIntact(capacity, s);
      PopEnds(capacity, s3, t, s.reserved[s.deq]);
      assert Alone(capacity, s2, t, 5) == Alone(capacity, s3, t, 4);
    } else {
      assert Alone(capacity, s2, t, 1) == (s3, Empty);
    }
  }

  /** After every run a pop that nobody interrupts does what it can. */
  lemma LoneTryPop(capacity: nat, run: seq<(Tid, Action)>, t: Tid)
    requires 2 <= capacity && At(Exec(capacity, run), t) == Idle
    ensures PopAnswers(capacity, Exec(capacity, run), t)
  {
    ExecInv(capacity, run);
    PopCall(capacity, Exec(capacity, run), t);
  }
}
