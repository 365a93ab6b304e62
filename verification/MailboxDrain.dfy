/** A drain that no push interrupts comes to an end, and by then every message has been handled. */
module MailboxDrain {

  import Q = BoundedQueue
  import QueueCalls
  import opened Mailbox
  import opened MailboxOrder

  /** What a state of a run satisfies, if no push is under way in it. */
  ghost predicate Calm(capacity: nat, c: Q.Tid, s: Mail) {
    && 2 <= capacity && Inv(capacity, s, c) && Q.Inv(capacity, s.queue) && Ordered(s.queue, c, s.handled)
    && forall t: Q.Tid :: !ProducerAt(s, t).Pushing?
  }

  lemma NobodyPushes(capacity: nat, c: Q.Tid, s: Mail, p: nat, t: Q.Tid)
    requires Calm(capacity, c, s)
    ensures !Q.PushOwns(Q.At(s.queue, t), p)
  {
  }

  // ----- How much a drain has left to do -----

  function PopRank(q: Q.State, pc: Q.Pc): nat {
    match pc
    case PopCheck(pos) => if pos == q.deq then 5 else 9
    case PopCas(pos) => if pos == q.deq then 4 else 8
    case PopLoad => 6
    case PopRead(_) => 43
    case PopDestroy(_, _) => 42
    case PopRelease(_, _) => 41
    case _ => 0
  }

  function Left(q: Q.State): nat {
    if q.deq <= q.enq then 100 * (q.enq - q.deq) else 0
  }

  function PoppingRank(q: Q.State, pc: Q.Pc, popped: bool): nat {
    Left(q) + PopRank(q, pc) + if popped && !Holds(pc) then 20 else 0
  }

  function Rank(c: Q.Tid, s: Mail): nat {
    var empty := s.queue.enq == s.queue.deq;
    match s.consumer
    case Asleep => 0
    case Popping(popped) => PoppingRank(s.queue, Q.At(s.queue, c), popped)
    case Clearing => Left(s.queue) + if empty then 4 else 14
    case LoadingEnq => Left(s.queue) + if empty then 3 else 13
    case Comparing(enq) => Left(s.queue) + if enq == s.queue.deq then 2 else 12
    case Retaking => Left(s.queue) + 11
  }

  /** One step of a pop: it finds nothing only where nothing is, it hands out what it holds, or it has less to do. */
  lemma PopFalls(capacity: nat, q: Q.State, c: Q.Tid, popped: bool)
    requires 2 <= capacity && Q.Inv(capacity, q) && Q.Pops(Q.At(q, c))
    requires forall t: Q.Tid :: !Q.PushOwns(Q.At(q, t), q.deq)
    ensures var (q', outcome) := Q.Step(capacity, q, c, Q.Advance(false));
      match outcome
      case Empty => q.enq == q.deq == q'.enq == q'.deq && !Holds(Q.At(q, c)) && PopRank(q, Q.At(q, c)) >= 5
      case Popped(_) => Q.At(q, c).PopRelease? && Left(q') == Left(q)
      case _ => PoppingRank(q', Q.At(q', c), popped) < PoppingRank(q, Q.At(q, c), popped)
  {
    var pc := Q.At(q, c);
    assert Q.ThreadOk(capacity, q, c);
    if pc.PopCheck? {
      QueueCalls.ReadyIs(capacity, q);
      if q.cells[Q.Slot(capacity, pc.pos)].sequence <= pc.pos {
        Q.BlockedPop(capacity, q, c, pc.pos);
      }
    } else if pc.PopCas? && pc.pos == q.deq {
      Q.StepInv(capacity, q, c, Q.Advance(false));
    }
  }

  lemma StartsAgain(capacity: nat, q: Q.State, c: Q.Tid)
    requires 0 < capacity == |q.cells| == |q.turn| == |q.owner| && Q.At(q, c) == Q.Idle
    ensures var q' := Q.Step(capacity, q, c, Q.StartPop).0;
      Q.At(q', c) == Q.PopLoad && q'.enq == q.enq && q'.deq == q.deq
  {
  }

  lemma PoppingFalls(capacity: nat, c: Q.Tid, s: Mail)
    requires Calm(capacity, c, s) && s.consumer.Popping?
    ensures Rank(c, DrainStep(capacity, s, c, false)) < Rank(c, s)
    ensures var s' := DrainStep(capacity, s, c, false);
      s'.consumer.Popping? || (s'.consumer == Clearing && s'.queue.enq == s'.queue.deq)
  {
    var q := s.queue;
    forall t: Q.Tid ensures !Q.PushOwns(Q.At(q, t), q.deq) {
      NobodyPushes(capacity, c, s, q.deq, t);
    }
    PopFalls(capacity, q, c, s.consumer.popped);
    PopEffect(capacity, q, c, false);
    var (q', outcome) := Q.Step(capacity, q, c, Q.Advance(false));
    if outcome == Q.Empty || outcome.Popped? {
      StartsAgain(capacity, q', c);
    }
  }

  /** The loop is popping, or has found the queue empty and is on its way to sleep. */
  ghost predicate Finishing(s: Mail) {
    match s.consumer
    case Popping(_) => true
    case Comparing(enq) => s.queue.enq == s.queue.deq == enq
    case Retaking => false
    case _ => s.queue.enq == s.queue.deq
  }

  lemma DrainFalls(capacity: nat, c: Q.Tid, s: Mail)
    requires Calm(capacity, c, s) && s.consumer != Asleep
    ensures Rank(c, DrainStep(capacity, s, c, false)) < Rank(c, s)
    ensures Finishing(s) ==> Finishing(DrainStep(capacity, s, c, false))
  {
    if s.consumer.Popping? {
      PoppingFalls(capacity, c, s);
    } else {
      StartsAgain(capacity, s.queue, c);
    }
  }

  lemma DrainAddsNothing(capacity: nat, c: Q.Tid, s: Mail)
    requires Sized(capacity, s) && (s.consumer.Popping? ==> Q.Pops(Q.At(s.queue, c)))
    ensures var s' := DrainStep(capacity, s, c, false);
      s'.producers == s.producers && s'.queue.reserved == s.queue.reserved
  {
    if s.consumer.Popping? {
      PopMoves(capacity, s.queue, c, false);
    }
  }

  lemma DrainCalm(capacity: nat, c: Q.Tid, s: Mail)
    requires Calm(capacity, c, s)
    ensures Calm(capacity, c, DrainStep(capacity, s, c, false))
  {
    var s' := DrainStep(capacity, s, c, false);
    DrainInv(capacity, c, s, false);
    QueueStep(capacity, c, s, Drain(false));
    DrainOrdered(capacity, c, s, false);
    DrainAddsNothing(capacity, c, s);
    forall t: Q.Tid ensures !ProducerAt(s', t).Pushing? {
      assert ProducerAt(s', t) == ProducerAt(s, t);
    }
  }

  lemma ExecMore(capacity: nat, c: Q.Tid, run: seq<Action>, a: Action)
    requires 0 < capacity
    ensures Exec(capacity, c, run + [a]) == Step(capacity, c, Exec(capacity, c, run), a)
  {
    assert (run + [a])[..|run|] == run;
  }

  ghost predicate OnlyDrains(more: seq<Action>) {
    forall i :: 0 <= i < |more| ==> more[i] == Drain(false)
  }

  lemma {:induction false} FallsAsleep(capacity: nat, c: Q.Tid, run: seq<Action>) returns (more: seq<Action>)
    requires 2 <= capacity && Calm(capacity, c, Exec(capacity, c, run))
    ensures OnlyDrains(more)
    ensures var s, s' := Exec(capacity, c, run), Exec(capacity, c, run + more);
      && Calm(capacity, c, s') && s'.consumer == Asleep && s'.queue.reserved == s.queue.reserved
      && (Finishing(s) ==> Finishing(s'))
    decreases Rank(c, Exec(capacity, c, run))
  {
    var s := Exec(capacity, c, run);
    more := [];
    if s.consumer == Asleep {
      assert run + more == run;
    } else {
      ExecMore(capacity, c, run, Drain(false));
      DrainFalls(capacity, c, s);
      DrainCalm(capacity, c, s);
      DrainAddsNothing(capacity, c, s);
      var rest := FallsAsleep(capacity, c, run + [Drain(false)]);
      more := [Drain(false)] + rest;
      assert run + more == run + [Drain(false)] + rest;
    }
  }

  /**
   From every state of every run in which no push is under way, the loop alone comes to sleep; if it was popping, it
   has then handled every message that was taken in, in order.
   */
  lemma DrainHandlesAll(capacity: nat, c: Q.Tid, run: seq<Action>) returns (more: seq<Action>)
    requires 2 <= capacity && forall t: Q.Tid :: !ProducerAt(Exec(capacity, c, run), t).Pushing?
    ensures OnlyDrains(more)
    ensures var s, s' := Exec(capacity, c, run), Exec(capacity, c, run + more);
      s'.consumer == Asleep && (s.consumer.Popping? ==> s'.handled == s'.queue.reserved == s.queue.reserved)
  {
    ExecInv(capacity, c, run);
    QueueInv(capacity, c, run);
    ExecOrdered(capacity, c, run);
    more := FallsAsleep(capacity, c, run);
    AsleepHandled(capacity, c, Exec(capacity, c, run + more));
  }

  lemma AsleepHandled(capacity: nat, c: Q.Tid, s: Mail)
    requires Calm(capacity, c, s) && s.consumer == Asleep
    ensures Finishing(s) ==> s.handled == s.queue.reserved
  {
    assert s.queue.reserved[..|s.queue.reserved|] == s.queue.reserved;
  }
}
