/**
 The mailbox of an io_uring loop: the bounded queue plus one notification flag. `Push` runs `TryPush` and then
 exchanges the flag; `Drain` pops until nothing comes, clears the flag, looks whether the queue is empty and
 otherwise tries to take the flag again. Every atomic step of the queue and of the flag is one step here.
 */
module Mailbox {

  import opened BoundedQueue

  /** Where a producer is inside `Push`. `Owing` has been told that a notification is needed and has not sent it yet. */
  datatype Producer = Free | Pushing | Exchanging(pos: nat) | Owing

  /** Where the loop thread is inside `Drain`. `popped` says whether the current inner drain has handled anything. */
  datatype Consumer = Asleep | Popping(popped: bool) | Clearing | LoadingEnq | Comparing(enq: nat) | Retaking

  /**
   `notes` counts notifications in flight. The rest is history: positions whose producer has done its exchange,
   producers by position, and the messages that the loop has handled.
   */
  datatype Mail = Mail(
    queue: BoundedQueue.State, flag: bool, producers: map<Tid, Producer>, consumer: Consumer, notes: nat,
    noticed: set<nat>, who: seq<Tid>, handled: seq<Value>)

  datatype Action =
    | Push(t: Tid, v: Value)
    | PushAdvance(t: Tid, spurious: bool)
    | Exchange(t: Tid)
    | Notify(t: Tid)
    | Receive
    | Drain(spurious: bool)

  function ProducerAt(s: Mail, t: Tid): Producer {
    if t in s.producers then s.producers[t] else Free
  }

  ghost predicate Sized(capacity: nat, s: Mail) {
    0 < capacity == |s.queue.cells| == |s.queue.turn| == |s.queue.owner|
  }

  function Init(capacity: nat): Mail {
    Mail(BoundedQueue.Init(capacity), false, map[], Asleep, 0, {}, [], [])
  }

  /** `Drain` by the loop thread `c`, one atomic step. */
  function DrainStep(capacity: nat, s: Mail, c: Tid, spurious: bool): (s': Mail)
    requires Sized(capacity, s)
    ensures Sized(capacity, s')
  {
    match s.consumer
    case Asleep => s
    case Popping(popped) =>
      var (q, outcome) := BoundedQueue.Step(capacity, s.queue, c, Advance(spurious));
      (match outcome
       case Popped(v) =>
         s.(queue := BoundedQueue.Step(capacity, q, c, StartPop).0, consumer := Popping(true),
           handled := s.handled + [v])
       case Empty =>
         if popped then s.(queue := BoundedQueue.Step(capacity, q, c, StartPop).0, consumer := Popping(false))
         else s.(queue := q, consumer := Clearing)
       case _ => s.(queue := q))
    case Clearing => s.(flag := false, consumer := LoadingEnq)
    case LoadingEnq => s.(consumer := Comparing(s.queue.enq))
    case Comparing(enq) => s.(consumer := if enq == s.queue.deq then Asleep else Retaking)
    case Retaking =>
      if s.flag then s.(consumer := Asleep)
      else s.(flag := true, queue := BoundedQueue.Step(capacity, s.queue, c, StartPop).0, consumer := Popping(false))
  }

  function PushAdvanceStep(capacity: nat, s: Mail, t: Tid, spurious: bool): (s': Mail)
    requires Sized(capacity, s)
    ensures Sized(capacity, s')
  {
    var pc := At(s.queue, t);
    var (q, outcome) := BoundedQueue.Step(capacity, s.queue, t, Advance(spurious));
    var next :=
      if outcome == Pushed && pc.PushPublish? then Exchanging(pc.pos) else if outcome == Full then Free else Pushing;
    s.(queue := q,
       producers := s.producers[t := next],
       who := if q.enq == s.queue.enq then s.who else s.who + [t])
  }

  /** One step; an action that its thread is not ready for changes nothing. The loop thread is `c`. */
  function Step(capacity: nat, c: Tid, s: Mail, a: Action): (s': Mail)
    requires Sized(capacity, s)
    ensures Sized(capacity, s')
  {
    match a
    case Push(t, v) =>
      if t != c && ProducerAt(s, t).Free? then
        s.(queue := BoundedQueue.Step(capacity, s.queue, t, StartPush(v)).0, producers := s.producers[t := Pushing])
      else s
    case PushAdvance(t, spurious) =>
      if t != c && ProducerAt(s, t).Pushing? then PushAdvanceStep(capacity, s, t, spurious) else s
    case Exchange(t) =>
      (match ProducerAt(s, t)
       case Exchanging(pos) =>
         s.(flag := true, noticed := s.noticed + {pos}, producers := s.producers[t := if s.flag then Free else Owing])
       case _ => s)
    case Notify(t) =>
      if ProducerAt(s, t).Owing? then s.(notes := s.notes + 1, producers := s.producers[t := Free]) else s
    case Receive =>
      if s.consumer.Asleep? && 0 < s.notes then
        s.(notes := s.notes - 1, queue := BoundedQueue.Step(capacity, s.queue, c, StartPop).0,
          consumer := Popping(false))
      else s
    case Drain(spurious) => DrainStep(capacity, s, c, spurious)
  }

  function Exec(capacity: nat, c: Tid, run: seq<Action>): (s: Mail)
    requires 0 < capacity
    ensures Sized(capacity, s)
  {
    if run == [] then Init(capacity)
    else Step(capacity, c, Exec(capacity, c, run[..|run| - 1]), run[|run| - 1])
  }

  // ----- What a queue step can change -----

  predicate IsPush(pc: Pc) {
    pc.PushLoad? || pc.PushCheck? || pc.PushCas? || pc.PushWrite? || pc.PushPublish?
  }

  lemma PushEffect(capacity: nat, q: BoundedQueue.State, t: Tid, spurious: bool)
    requires 0 < capacity == |q.cells| == |q.turn| == |q.owner| && IsPush(At(q, t))
    ensures var (q', outcome) := BoundedQueue.Step(capacity, q, t, Advance(spurious));
      && q'.deq == q.deq && (forall u: Tid :: u != t ==> At(q', u) == At(q, u))
      && (q'.enq == q.enq || (q'.enq == q.enq + 1 && PushOwns(At(q', t), q.enq)))
      && (if outcome == Pushed then At(q, t).PushPublish? && At(q', t) == Idle
          else if outcome == Full then At(q', t) == Idle && At(q, t).PushCheck?
          else IsPush(At(q', t)) && (forall p: nat :: PushOwns(At(q, t), p) ==> PushOwns(At(q', t), p)))
  {
  }

  lemma PopEffect(capacity: nat, q: BoundedQueue.State, c: Tid, spurious: bool)
    requires 0 < capacity == |q.cells| == |q.turn| == |q.owner| && Pops(At(q, c))
    ensures var (q', outcome) := BoundedQueue.Step(capacity, q, c, Advance(spurious));
      && q'.enq == q.enq && q.deq <= q'.deq && (forall u: Tid :: u != c ==> At(q', u) == At(q, u))
      && (if outcome == Empty || outcome.Popped? then At(q', c) == Idle else Pops(At(q', c)))
  {
  }

  // ----- The invariant -----

  ghost predicate Pending(s: Mail, t: Tid, p: nat) {
    PushOwns(At(s.queue, t), p) || ProducerAt(s, t) == Exchanging(p)
  }

  ghost predicate ThreadsOk(s: Mail, c: Tid) {
    && (forall t: Tid :: t != c ==>
         (if ProducerAt(s, t).Pushing? then IsPush(At(s.queue, t)) else At(s.queue, t) == Idle))
    && ProducerAt(s, c) == Free
    && (if s.consumer.Popping? then Pops(At(s.queue, c)) else At(s.queue, c) == Idle)
  }

  /** The flag is up only while somebody will make the consumer look again. */
  ghost predicate FlagOk(s: Mail) {
    s.flag ==> 0 < s.notes || (exists t: Tid :: ProducerAt(s, t).Owing?) || s.consumer.Popping? || s.consumer.Clearing?
  }

  /**
   A queued position whose producer has exchanged, while the flag is down, is one that the consumer is about to see.
   */
  ghost predicate SeenOk(s: Mail) {
    forall p: nat :: s.queue.deq <= p < s.queue.enq && p in s.noticed && !s.flag ==>
      s.consumer.LoadingEnq? || s.consumer.Retaking? || (s.consumer.Comparing? && p < s.consumer.enq)
  }

  ghost predicate Inv(capacity: nat, s: Mail, c: Tid) {
    && Sized(capacity, s) && ThreadsOk(s, c) && FlagOk(s) && SeenOk(s)
    && |s.who| == s.queue.enq
    && (forall p: nat :: p in s.noticed ==> p < s.queue.enq)
    && (forall t: Tid, p: nat :: Pending(s, t, p) ==> p < s.queue.enq)
    && (forall p: nat :: p < s.queue.enq && p !in s.noticed ==> Pending(s, s.who[p], p))
    && (s.consumer.Comparing? ==> s.consumer.enq <= s.queue.enq)
  }

  // ----- Every step keeps the invariant -----

  lemma PushInv(capacity: nat, c: Tid, s: Mail, t: Tid, v: Value)
    requires Inv(capacity, s, c)
    ensures Inv(capacity, Step(capacity, c, s, Push(t, v)), c)
  {
    if t != c && ProducerAt(s, t).Free? {
      var s' := Step(capacity, c, s, Push(t, v));
      assert forall u: Tid :: u != t ==> ProducerAt(s', u) == ProducerAt(s, u) && At(s'.queue, u) == At(s.queue, u);
      forall p: nat | p < s'.queue.enq && p !in s'.noticed ensures Pending(s', s'.who[p], p) {
        assert Pending(s, s.who[p], p);
      }
      forall u: Tid, p: nat | Pending(s', u, p) ensures p < s'.queue.enq {
        assert Pending(s, u, p);
      }
      if u: Tid :| ProducerAt(s, u).Owing? {
        assert ProducerAt(s', u).Owing?;
      }
    }
  }

  lemma PushAdvanceInv(capacity: nat, c: Tid, s: Mail, t: Tid, spurious: bool)
    requires Inv(capacity, s, c)
    ensures Inv(capacity, Step(capacity, c, s, PushAdvance(t, spurious)), c)
  {
    if t != c && ProducerAt(s, t).Pushing? {
      PushEffect(capacity, s.queue, t, spurious);
      var s' := PushAdvanceStep(capacity, s, t, spurious);
      assert forall u: Tid :: u != t ==> ProducerAt(s', u) == ProducerAt(s, u) && At(s'.queue, u) == At(s.queue, u);
      forall p: nat | p < s'.queue.enq && p !in s'.noticed ensures Pending(s', s'.who[p], p) {
        if p < s.queue.enq {
          assert Pending(s, s.who[p], p);
        }
      }
      forall u: Tid, p: nat | Pending(s', u, p) ensures p < s'.queue.enq {
        assert Pending(s, u, p) || p == s.queue.enq;
      }
      if u: Tid :| ProducerAt(s, u).Owing? {
        assert ProducerAt(s', u).Owing?;
      }
    }
  }

  lemma ExchangeInv(capacity: nat, c: Tid, s: Mail, t: Tid)
    requires Inv(capacity, s, c)
    ensures Inv(capacity, Step(capacity, c, s, Exchange(t)), c)
  {
    if ProducerAt(s, t).Exchanging? {
      var s' := Step(capacity, c, s, Exchange(t));
      assert forall u: Tid :: u != t ==> ProducerAt(s', u) == ProducerAt(s, u);
      forall p: nat | p < s'.queue.enq && p !in s'.noticed ensures Pending(s', s'.who[p], p) {
        assert Pending(s, s.who[p], p);
      }
      assert Pending(s, t, ProducerAt(s, t).pos);
      forall u: Tid, p: nat | Pending(s', u, p) ensures p < s'.queue.enq {
        assert Pending(s, u, p);
      }
      if !s.flag {
        assert ProducerAt(s', t).Owing?;
      } else if u: Tid :| ProducerAt(s, u).Owing? {
        assert ProducerAt(s', u).Owing?;
      }
    }
  }

  lemma NotifyInv(capacity: nat, c: Tid, s: Mail, t: Tid)
    requires Inv(capacity, s, c)
    ensures Inv(capacity, Step(capacity, c, s, Notify(t)), c)
  {
    if ProducerAt(s, t).Owing? {
      var s' := Step(capacity, c, s, Notify(t));
      assert forall u: Tid :: u != t ==> ProducerAt(s', u) == ProducerAt(s, u);
      forall p: nat | p < s'.queue.enq && p !in s'.noticed ensures Pending(s', s'.who[p], p) {
        assert Pending(s, s.who[p], p);
      }
      forall u: Tid, p: nat | Pending(s', u, p) ensures p < s'.queue.enq {
        assert Pending(s, u, p);
      }
    }
  }

  /** A change of the consumer alone, of the flag to match, and of the queue by popping. */
  lemma ConsumerInv(capacity: nat, c: Tid, s: Mail, s': Mail)
    requires Inv(capacity, s, c) && Sized(capacity, s')
    requires s'.producers == s.producers && s'.noticed == s.noticed && s'.who == s.who
    requires s'.queue.enq == s.queue.enq && s.queue.deq <= s'.queue.deq
    requires forall u: Tid :: u != c ==> At(s'.queue, u) == At(s.queue, u)
    requires forall p: nat :: !PushOwns(At(s'.queue, c), p)
    requires if s'.consumer.Popping? then Pops(At(s'.queue, c)) else At(s'.queue, c) == Idle
    requires FlagOk(s') && SeenOk(s') && (s'.consumer.Comparing? ==> s'.consumer.enq <= s'.queue.enq)
    ensures Inv(capacity, s', c)
  {
    assert forall u: Tid :: ProducerAt(s', u) == ProducerAt(s, u);
    forall p: nat | p < s'.queue.enq && p !in s'.noticed ensures Pending(s', s'.who[p], p) {
      assert Pending(s, s.who[p], p);
    }
    forall u: Tid, p: nat | Pending(s', u, p) ensures p < s'.queue.enq {
      assert Pending(s, u, p);
    }
  }

  lemma DrainInv(capacity: nat, c: Tid, s: Mail, spurious: bool)
    requires Inv(capacity, s, c)
    ensures Inv(capacity, DrainStep(capacity, s, c, spurious), c)
  {
    var s' := DrainStep(capacity, s, c, spurious);
    if s.consumer.Popping? {
      PopEffect(capacity, s.queue, c, spurious);
    }
    if s.consumer != Asleep {
      assert forall u: Tid :: ProducerAt(s', u) == ProducerAt(s, u);
      ConsumerInv(capacity, c, s, s');
    }
  }

  lemma ReceiveInv(capacity: nat, c: Tid, s: Mail)
    requires Inv(capacity, s, c)
    ensures Inv(capacity, Step(capacity, c, s, Receive), c)
  {
    if s.consumer.Asleep? && 0 < s.notes {
      ConsumerInv(capacity, c, s, Step(capacity, c, s, Receive));
    }
  }

  lemma {:induction false} ExecInv(capacity: nat, c: Tid, run: seq<Action>)
    requires 0 < capacity
    ensures Inv(capacity, Exec(capacity, c, run), c)
  {
    if run != [] {
      var s := Exec(capacity, c, run[..|run| - 1]);
      ExecInv(capacity, c, run[..|run| - 1]);
      match run[|run| - 1]
      case Push(t, v) => PushInv(capacity, c, s, t, v);
      case PushAdvance(t, spurious) => PushAdvanceInv(capacity, c, s, t, spurious);
      case Exchange(t) => ExchangeInv(capacity, c, s, t);
      case Notify(t) => NotifyInv(capacity, c, s, t);
      case Receive => ReceiveInv(capacity, c, s);
      case Drain(spurious) => DrainInv(capacity, c, s, spurious);
    }
  }

  // ----- What the mailbox promises -----

  /**
   No lost notification: for every queued message, in every reachable state, its producer has not yet done its exchange,
   or the consumer is draining, or a notification is in flight, or a producer has been told to send one.
   */
  lemma NoLostNotification(capacity: nat, c: Tid, run: seq<Action>, p: nat)
    requires 0 < capacity && var s := Exec(capacity, c, run); s.queue.deq <= p < s.queue.enq
    ensures var s := Exec(capacity, c, run);
      || (p < |s.who| && Pending(s, s.who[p], p))
      || s.consumer != Asleep
      || 0 < s.notes
      || exists t: Tid :: ProducerAt(s, t).Owing?
  {
    ExecInv(capacity, c, run);
  }

  lemma DrainQueue(capacity: nat, c: Tid, s: Mail, spurious: bool)
    requires Sized(capacity, s)
    ensures var q, q1 := s.queue, BoundedQueue.Step(capacity, s.queue, c, Advance(spurious)).0;
      var q' := DrainStep(capacity, s, c, spurious).queue;
      || q' == q
      || q' == BoundedQueue.Step(capacity, q, c, StartPop).0
      || q' == q1
      || q' == BoundedQueue.Step(capacity, q1, c, StartPop).0
  {
  }

  lemma QueueStep(capacity: nat, c: Tid, s: Mail, a: Action)
    requires Sized(capacity, s) && 2 <= capacity && BoundedQueue.Inv(capacity, s.queue)
    ensures BoundedQueue.Inv(capacity, Step(capacity, c, s, a).queue)
  {
    var q := s.queue;
    match a
    case Push(t, v) => StepInv(capacity, q, t, StartPush(v));
    case PushAdvance(t, spurious) => StepInv(capacity, q, t, Advance(spurious));
    case Receive => StepInv(capacity, q, c, StartPop);
    case Drain(spurious) =>
      DrainQueue(capacity, c, s, spurious);
      StepInv(capacity, q, c, StartPop);
      StepInv(capacity, q, c, Advance(spurious));
      StepInv(capacity, BoundedQueue.Step(capacity, q, c, Advance(spurious)).0, c, StartPop);
    case _ =>
  }

  /** The queue under the mailbox is a bounded queue in a state of its own protocol. */
  lemma {:induction false} QueueInv(capacity: nat, c: Tid, run: seq<Action>)
    requires 2 <= capacity
    ensures BoundedQueue.Inv(capacity, Exec(capacity, c, run).queue)
  {
    if run == [] {
      BoundedQueue.InitInv(capacity);
    } else {
      QueueInv(capacity, c, run[..|run| - 1]);
      QueueStep(capacity, c, Exec(capacity, c, run[..|run| - 1]), run[|run| - 1]);
    }
  }

  /**
   When every call has returned, every notification has been delivered and the consumer sleeps, the mailbox is
   empty.
   */
  lemma QuietMeansEmpty(capacity: nat, c: Tid, run: seq<Action>)
    requires 2 <= capacity
    requires var s := Exec(capacity, c, run);
      s.consumer == Asleep && s.notes == 0 && forall t: Tid :: ProducerAt(s, t) == Free
    ensures var s := Exec(capacity, c, run); s.queue.enq == s.queue.deq
  {
    ExecInv(capacity, c, run);
    QueueInv(capacity, c, run);
    var s := Exec(capacity, c, run);
    if s.queue.deq < s.queue.enq {
      NoLostNotification(capacity, c, run, s.queue.deq);
    }
  }
}
