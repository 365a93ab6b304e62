/** The mailbox as a whole: its messages are handled in the order in which their positions were reserved, each once. */
module MailboxOrder {

  import Q = BoundedQueue
  import opened Mailbox

  predicate Holds(pc: Q.Pc) {
    pc.PopRead? || pc.PopDestroy? || pc.PopRelease?
  }

  /** Positions claimed by the loop, less the one it has not handed out yet. */
  function Finished(q: Q.State, c: Q.Tid): int {
    if Holds(Q.At(q, c)) then q.deq - 1 else q.deq
  }

  ghost predicate Ordered(q: Q.State, c: Q.Tid, handled: seq<Q.Value>) {
    && 0 <= Finished(q, c) <= |q.reserved| && handled == q.reserved[..Finished(q, c)]
    && (forall p: nat :: Q.PopOwns(Q.At(q, c), p) ==> p == q.deq - 1)
  }

  lemma PopMoves(capacity: nat, q: Q.State, c: Q.Tid, spurious: bool)
    requires 0 < capacity == |q.cells| == |q.turn| == |q.owner| && Q.Pops(Q.At(q, c))
    ensures var (q', outcome) := Q.Step(capacity, q, c, Q.Advance(spurious));
      var pc, pc' := Q.At(q, c), Q.At(q', c);
      && q'.reserved == q.reserved
      && if outcome.Popped? then pc.PopRelease? && outcome.v == pc.v && pc' == Q.Idle && q'.deq == q.deq
         else if pc.PopCas? && Holds(pc') then pc' == Q.PopRead(q.deq) && q'.deq == q.deq + 1
         else q'.deq == q.deq && (Holds(pc') <==> Holds(pc)) && (Holds(pc) ==> pc'.pos == pc.pos)
  {
  }

  lemma QueueFacts(capacity: nat, q: Q.State, c: Q.Tid)
    requires Q.Inv(capacity, q)
    ensures q.deq <= |q.reserved|
    ensures Q.At(q, c).PopRelease? ==>
      Q.At(q, c).pos < q.deq && Q.At(q, c).v == q.reserved[Q.At(q, c).pos]
  {
    assert Q.ThreadOk(capacity, q, c);
  }

  /** One step of a pop by the only consumer, and what it hands out. */
  lemma PopOrdered(capacity: nat, q: Q.State, c: Q.Tid, spurious: bool, handled: seq<Q.Value>)
    requires 0 < capacity == |q.cells| == |q.turn| == |q.owner| && Ordered(q, c, handled) && Q.Pops(Q.At(q, c))
    requires q.deq <= |q.reserved| && Q.Step(capacity, q, c, Q.Advance(spurious)).0.deq <= |q.reserved|
    requires Q.At(q, c).PopRelease? ==> 0 < q.deq && Q.At(q, c).v == q.reserved[q.deq - 1]
    ensures var (q', outcome) := Q.Step(capacity, q, c, Q.Advance(spurious));
      Ordered(q', c, if outcome.Popped? then handled + [outcome.v] else handled)
  {
    PopMoves(capacity, q, c, spurious);
    var (q', outcome) := Q.Step(capacity, q, c, Q.Advance(spurious));
    if Holds(Q.At(q, c)) {
      assert Q.PopOwns(Q.At(q, c), Q.At(q, c).pos);
    }
    if outcome.Popped? {
      assert q.reserved[..q.deq] == q.reserved[..q.deq - 1] + [q.reserved[q.deq - 1]];
    }
  }

  lemma PopOrderedNext(capacity: nat, q: Q.State, c: Q.Tid, spurious: bool, handled: seq<Q.Value>)
    requires 2 <= capacity && Q.Inv(capacity, q) && Ordered(q, c, handled) && Q.Pops(Q.At(q, c))
    ensures var (q', outcome) := Q.Step(capacity, q, c, Q.Advance(spurious));
      Ordered(q', c, if outcome.Popped? then handled + [outcome.v] else handled)
  {
    Q.StepInv(capacity, q, c, Q.Advance(spurious));
    QueueFacts(capacity, Q.Step(capacity, q, c, Q.Advance(spurious)).0, c);
    QueueFacts(capacity, q, c);
    PopMoves(capacity, q, c, spurious);
    if Q.At(q, c).PopRelease? {
      assert Q.PopOwns(Q.At(q, c), Q.At(q, c).pos);
    }
    PopOrdered(capacity, q, c, spurious, handled);
  }

  lemma StartOrdered(capacity: nat, q: Q.State, c: Q.Tid, handled: seq<Q.Value>)
    requires 0 < capacity == |q.cells| == |q.turn| == |q.owner| && Ordered(q, c, handled)
    ensures Ordered(Q.Step(capacity, q, c, Q.StartPop).0, c, handled)
  {
  }

  lemma StartPushOrdered(capacity: nat, q: Q.State, c: Q.Tid, t: Q.Tid, v: Q.Value, handled: seq<Q.Value>)
    requires 0 < capacity == |q.cells| == |q.turn| == |q.owner| && Ordered(q, c, handled) && t != c
    ensures Ordered(Q.Step(capacity, q, t, Q.StartPush(v)).0, c, handled)
  {
  }

  lemma PushMoves(capacity: nat, q: Q.State, c: Q.Tid, t: Q.Tid, spurious: bool)
    requires 0 < capacity == |q.cells| == |q.turn| == |q.owner| && t != c && IsPush(Q.At(q, t))
    ensures var q' := Q.Step(capacity, q, t, Q.Advance(spurious)).0;
      q'.deq == q.deq && Q.At(q', c) == Q.At(q, c) && q.reserved <= q'.reserved
  {
  }

  lemma PushOrdered(capacity: nat, q: Q.State, c: Q.Tid, t: Q.Tid, spurious: bool, handled: seq<Q.Value>)
    requires 0 < capacity == |q.cells| == |q.turn| == |q.owner| && t != c && IsPush(Q.At(q, t)) &&
      Ordered(q, c, handled)
    ensures Ordered(Q.Step(capacity, q, t, Q.Advance(spurious)).0, c, handled)
  {
    PushMoves(capacity, q, c, t, spurious);
    var q' := Q.Step(capacity, q, t, Q.Advance(spurious)).0;
    assert q'.reserved[..Finished(q, c)] == q.reserved[..Finished(q, c)];
  }

  // ----- The mailbox -----

  lemma DrainOrdered(capacity: nat, c: Q.Tid, s: Mail, spurious: bool)
    requires 2 <= capacity && Inv(capacity, s, c) && Q.Inv(capacity, s.queue) && Ordered(s.queue, c, s.handled)
    ensures var s' := DrainStep(capacity, s, c, spurious); Ordered(s'.queue, c, s'.handled)
  {
    if s.consumer.Popping? {
      var (q, outcome) := Q.Step(capacity, s.queue, c, Q.Advance(spurious));
      var handled := if outcome.Popped? then s.handled + [outcome.v] else s.handled;
      PopOrderedNext(capacity, s.queue, c, spurious, s.handled);
      StartOrdered(capacity, q, c, handled);
    } else {
      StartOrdered(capacity, s.queue, c, s.handled);
    }
  }

  lemma StepOrdered(capacity: nat, c: Q.Tid, s: Mail, a: Action)
    requires 2 <= capacity && Inv(capacity, s, c) && Q.Inv(capacity, s.queue) && Ordered(s.queue, c, s.handled)
    ensures var s' := Step(capacity, c, s, a); Ordered(s'.queue, c, s'.handled)
  {
    match a
    case Push(t, v) => if t != c { StartPushOrdered(capacity, s.queue, c, t, v, s.handled); }
    case PushAdvance(t, spurious) =>
      if t != c && ProducerAt(s, t).Pushing? {
        PushOrdered(capacity, s.queue, c, t, spurious, s.handled);
      }
    case Receive => StartOrdered(capacity, s.queue, c, s.handled);
    case Drain(spurious) => DrainOrdered(capacity, c, s, spurious);
    case _ =>
  }

  lemma {:induction false} ExecOrdered(capacity: nat, c: Q.Tid, run: seq<Action>)
    requires 2 <= capacity
    ensures var s := Exec(capacity, c, run); Ordered(s.queue, c, s.handled)
  {
    if run != [] {
      var front := run[..|run| - 1];
      ExecOrdered(capacity, c, front);
      ExecInv(capacity, c, front);
      QueueInv(capacity, c, front);
      StepOrdered(capacity, c, Exec(capacity, c, front), run[|run| - 1]);
    }
  }

  /**
   In every run the handled messages are the first ones in the order of their reservations, each handled once; at
   most one more has been claimed.
   */
  lemma HandledInOrder(capacity: nat, c: Q.Tid, run: seq<Action>)
    requires 2 <= capacity
    ensures var s := Exec(capacity, c, run);
      s.handled <= s.queue.reserved && s.queue.deq - 1 <= |s.handled| <= s.queue.deq
  {
    ExecOrdered(capacity, c, run);
  }

  /** When everything is quiet, every message that was taken in has been handled, in order. */
  lemma AllHandled(capacity: nat, c: Q.Tid, run: seq<Action>)
    requires 2 <= capacity
    requires var s := Exec(capacity, c, run);
      s.consumer == Asleep && s.notes == 0 && forall t: Q.Tid :: ProducerAt(s, t) == Free
    ensures var s := Exec(capacity, c, run); s.handled == s.queue.reserved
  {
    QuietMeansEmpty(capacity, c, run);
    ExecOrdered(capacity, c, run);
    ExecInv(capacity, c, run);
    QueueInv(capacity, c, run);
    var s := Exec(capacity, c, run);
    assert s.queue.reserved[..|s.queue.reserved|] == s.queue.reserved;
  }
}
