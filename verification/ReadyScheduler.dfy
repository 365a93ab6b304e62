/**
 The loop's two ready queues. Completions usually go first, within budgets; ordinary work that has waited too long goes
 before them. The clock and what resumed work does to the queues are given from outside.
 */
module ReadyScheduler {

  /** Budgets per turn and age thresholds; zero means none. */
  datatype Config = Config(maxWork: nat, maxCompletion: nat, maxUrgent: nat, timeBudget: nat, completionAge: nat,
    normalAge: nat)

  datatype Lane = Normal | Completion

  datatype Enqueue = Enqueue(lane: Lane, work: int, at: int)

  /** What a piece of work enqueues while it runs, and the time when it yields. */
  datatype Effect = Effect(enqueues: seq<Enqueue>, now: int)

  datatype Event = Schedule(e: Enqueue) | Turn(start: int, effects: seq<Effect>)

  /** The queues with their counters; the histories record everything ever enqueued and resumed, in order. */
  datatype Loop = Loop(
    ready: seq<int>, completions: seq<int>, readyDepth: int, completionDepth: int,
    readySince: int, completionSince: int,
    enqueued: seq<int>, resumed: seq<int>, completionEnqueued: seq<int>, completionResumed: seq<int>)

  function Idle(): Loop {
    Loop([], [], 0, 0, 0, 0, [], [], [], [])
  }

  function Enqueued(l: Loop, e: Enqueue): Loop {
    match e.lane
    case Normal =>
      l.(ready := l.ready + [e.work], readyDepth := l.readyDepth + 1, enqueued := l.enqueued + [e.work],
         readySince := if l.readyDepth == 0 then e.at else l.readySince)
    case Completion =>
      l.(completions := l.completions + [e.work], completionDepth := l.completionDepth + 1,
         completionEnqueued := l.completionEnqueued + [e.work],
         completionSince := if l.completionDepth == 0 then e.at else l.completionSince)
  }

  function EnqueuedAll(l: Loop, es: seq<Enqueue>): Loop {
    if es == [] then l else Enqueued(EnqueuedAll(l, es[..|es| - 1]), es[|es| - 1])
  }

  function PopReady(l: Loop): Loop
    requires l.ready != []
  {
    l.(ready := l.ready[1..], readyDepth := l.readyDepth - 1, resumed := l.resumed + [l.ready[0]],
       readySince := if l.readyDepth == 1 then 0 else l.readySince)
  }

  function PopCompletion(l: Loop): Loop
    requires l.completions != []
  {
    l.(completions := l.completions[1..], completionDepth := l.completionDepth - 1,
       completionResumed := l.completionResumed + [l.completions[0]],
       completionSince := if l.completionDepth == 1 then 0 else l.completionSince)
  }

  predicate Overdue(cfg: Config, l: Loop, now: int) {
    l.readyDepth > 0 && cfg.normalAge != 0 && now - l.readySince >= cfg.normalAge
  }

  predicate Urgent(cfg: Config, l: Loop, now: int) {
    l.completionDepth > 0 && cfg.completionAge != 0 && now - l.completionSince >= cfg.completionAge
  }

  /** How many completions may go before ordinary work in this turn; zero means any number. */
  function CompletionBudget(cfg: Config, l: Loop, now: int): nat {
    if Urgent(cfg, l, now) && !Overdue(cfg, l, now) && cfg.maxUrgent != 0 then cfg.maxUrgent else cfg.maxCompletion
  }

  /** What a turn fixes when it starts, and what it has done so far. */
  datatype Tally = Tally(start: int, overdue: bool, budget: nat, resumed: nat, completions: nat)

  predicate CompletionNext(l: Loop, t: Tally) {
    l.completions != [] && (l.ready == [] || (!t.overdue && (t.budget == 0 || t.completions < t.budget)))
  }

  predicate Stops(cfg: Config, l: Loop, t: Tally) {
    (l.ready == [] && l.completions == []) || (cfg.maxWork != 0 && t.resumed >= cfg.maxWork)
  }

  function Popped(l: Loop, t: Tally): Loop
    requires l.ready != [] || l.completions != []
  {
    if CompletionNext(l, t) then PopCompletion(l) else PopReady(l)
  }

  function Counted(l: Loop, t: Tally): Tally {
    t.(resumed := t.resumed + 1, completions := t.completions + if CompletionNext(l, t) then 1 else 0)
  }

  /** The work on hand runs until the queues or a budget are exhausted; after the last effect work enqueues nothing. */
  function Run(cfg: Config, l: Loop, t: Tally, effects: seq<Effect>): Loop
    decreases |effects|, |l.ready| + |l.completions|
  {
    if Stops(cfg, l, t) then l
    else
      var p := Popped(l, t);
      if effects == [] then Run(cfg, p, Counted(l, t), [])
      else
        var q := EnqueuedAll(p, effects[0].enqueues);
        if cfg.timeBudget != 0 && effects[0].now - t.start >= cfg.timeBudget then q
        else Run(cfg, q, Counted(l, t), effects[1..])
  }

  function Started(cfg: Config, l: Loop, now: int): Tally {
    Tally(now, Overdue(cfg, l, now), CompletionBudget(cfg, l, now), 0, 0)
  }

  function Step(cfg: Config, l: Loop, e: Event): Loop {
    match e
    case Schedule(enq) => Enqueued(l, enq)
    case Turn(start, effects) => Run(cfg, l, Started(cfg, l, start), effects)
  }

  function Exec(cfg: Config, l: Loop, run: seq<Event>): Loop {
    if run == [] then l else Step(cfg, Exec(cfg, l, run[..|run| - 1]), run[|run| - 1])
  }

  // ----- Counters and order -----

  /** The counters are the lengths, and both queues are first in, first out and lose nothing. */
  ghost predicate Inv(l: Loop) {
    && l.readyDepth == |l.ready| && l.completionDepth == |l.completions|
    && l.resumed + l.ready == l.enqueued && l.completionResumed + l.completions == l.completionEnqueued
  }

  lemma EnqueuedKeeps(l: Loop, e: Enqueue)
    requires Inv(l)
    ensures Inv(Enqueued(l, e))
  {
    assert l.resumed + (l.ready + [e.work]) == l.resumed + l.ready + [e.work];
    assert l.completionResumed + (l.completions + [e.work]) == l.completionResumed + l.completions + [e.work];
  }

  lemma {:induction false} EnqueuedAllKeeps(l: Loop, es: seq<Enqueue>)
    requires Inv(l)
    ensures Inv(EnqueuedAll(l, es))
  {
    if es != [] {
      EnqueuedAllKeeps(l, es[..|es| - 1]);
      EnqueuedKeeps(EnqueuedAll(l, es[..|es| - 1]), es[|es| - 1]);
    }
  }

  lemma PoppedKeeps(l: Loop, t: Tally)
    requires Inv(l) && (l.ready != [] || l.completions != [])
    ensures Inv(Popped(l, t))
  {
    if CompletionNext(l, t) {
      assert l.completionResumed + [l.completions[0]] + l.completions[1..] == l.completionResumed + l.completions;
    } else {
      assert l.resumed + [l.ready[0]] + l.ready[1..] == l.resumed + l.ready;
    }
  }

  lemma {:induction false} RunKeeps(cfg: Config, l: Loop, t: Tally, effects: seq<Effect>)
    requires Inv(l)
    ensures Inv(Run(cfg, l, t, effects))
    decreases |effects|, |l.ready| + |l.completions|
  {
    if !Stops(cfg, l, t) {
      PoppedKeeps(l, t);
      if effects == [] {
        RunKeeps(cfg, Popped(l, t), Counted(l, t), []);
      } else {
        EnqueuedAllKeeps(Popped(l, t), effects[0].enqueues);
        RunKeeps(cfg, EnqueuedAll(Popped(l, t), effects[0].enqueues), Counted(l, t), effects[1..]);
      }
    }
  }

  /** In every run the depth counters equal the queue lengths, and work is resumed in the order in which it came. */
  lemma {:induction false} CountersAndOrder(cfg: Config, l: Loop, run: seq<Event>)
    requires Inv(l)
    ensures Inv(Exec(cfg, l, run))
  {
    if run != [] {
      var m, e := Exec(cfg, l, run[..|run| - 1]), run[|run| - 1];
      CountersAndOrder(cfg, l, run[..|run| - 1]);
      match e
      case Schedule(enq) => EnqueuedKeeps(m, enq);
      case Turn(start, effects) => RunKeeps(cfg, m, Started(cfg, m, start), effects);
    }
  }

  // ----- Ordinary work does not starve -----

  /**
   From `l` to `m` nothing is taken back; and if the ordinary item with number `n`, which is queued in `l`, has not been
   resumed in `m`, then the queue has not been empty in between and its age counts from the same moment.
   */
  ghost predicate Later(l: Loop, m: Loop, n: nat) {
    && |l.resumed| <= |m.resumed| && |l.enqueued| <= |m.enqueued|
    && (|m.resumed| <= n < |l.enqueued| ==> m.readySince == l.readySince)
  }

  lemma LaterChain(l: Loop, m: Loop, k: Loop, n: nat)
    requires Later(l, m, n) && Later(m, k, n)
    ensures Later(l, k, n)
  {
  }

  lemma EnqueuedLater(l: Loop, e: Enqueue, n: nat)
    requires Inv(l) && |l.resumed| <= n < |l.enqueued|
    ensures Later(l, Enqueued(l, e), n)
  {
  }

  lemma {:induction false} EnqueuedAllLater(l: Loop, es: seq<Enqueue>, n: nat)
    requires Inv(l)
    ensures Later(l, EnqueuedAll(l, es), n) && EnqueuedAll(l, es).resumed == l.resumed
  {
    if es != [] {
      var m := EnqueuedAll(l, es[..|es| - 1]);
      EnqueuedAllLater(l, es[..|es| - 1], n);
      EnqueuedAllKeeps(l, es[..|es| - 1]);
      if |l.resumed| <= n < |l.enqueued| {
        EnqueuedLater(m, es[|es| - 1], n);
      }
    }
  }

  lemma PoppedLater(l: Loop, t: Tally, n: nat)
    requires Inv(l) && (l.ready != [] || l.completions != [])
    ensures Later(l, Popped(l, t), n)
  {
    if !CompletionNext(l, t) && l.readyDepth == 1 {
      assert |Popped(l, t).resumed| == |l.enqueued|;
    }
  }

  lemma {:induction false} RunLater(cfg: Config, l: Loop, t: Tally, effects: seq<Effect>, n: nat)
    requires Inv(l)
    ensures Later(l, Run(cfg, l, t, effects), n)
    decreases |effects|, |l.ready| + |l.completions|
  {
    if !Stops(cfg, l, t) {
      var p := Popped(l, t);
      PoppedKeeps(l, t);
      PoppedLater(l, t, n);
      if effects == [] {
        RunLater(cfg, p, Counted(l, t), [], n);
      } else {
        var q := EnqueuedAll(p, effects[0].enqueues);
        EnqueuedAllKeeps(p, effects[0].enqueues);
        EnqueuedAllLater(p, effects[0].enqueues, n);
        LaterChain(l, p, q, n);
        RunLater(cfg, q, Counted(l, t), effects[1..], n);
      }
    }
  }

  /** A turn that finds ordinary work overdue resumes some of it first, whatever the budgets and the completions. */
  lemma OverdueTurn(cfg: Config, l: Loop, start: int, effects: seq<Effect>)
    requires Inv(l) && Overdue(cfg, l, start)
    ensures |Step(cfg, l, Turn(start, effects)).resumed| > |l.resumed|
  {
    var t := Started(cfg, l, start);
    assert !CompletionNext(l, t) && !Stops(cfg, l, t);
    var p := PopReady(l);
    PoppedKeeps(l, t);
    if effects == [] {
      RunLater(cfg, p, Counted(l, t), [], 0);
    } else {
      var q := EnqueuedAll(p, effects[0].enqueues);
      EnqueuedAllKeeps(p, effects[0].enqueues);
      EnqueuedAllLater(p, effects[0].enqueues, 0);
      RunLater(cfg, q, Counted(l, t), effects[1..], 0);
    }
  }

  function Turns(run: seq<Event>): nat {
    if run == [] then 0 else Turns(run[..|run| - 1]) + if run[|run| - 1].Turn? then 1 else 0
  }

  ghost predicate After(run: seq<Event>, time: int) {
    forall i :: 0 <= i < |run| && run[i].Turn? ==> run[i].start >= time
  }

  lemma StepLater(cfg: Config, l: Loop, e: Event, n: nat)
    requires Inv(l) && |l.resumed| <= n < |l.enqueued|
    ensures Later(l, Step(cfg, l, e), n)
  {
    match e
    case Schedule(enq) => EnqueuedLater(l, enq, n);
    case Turn(start, effects) => RunLater(cfg, l, Started(cfg, l, start), effects, n);
  }

  lemma StepResumed(cfg: Config, l: Loop, e: Event)
    requires Inv(l)
    ensures |l.resumed| <= |Step(cfg, l, e).resumed|
  {
    match e
    case Schedule(enq) =>
    case Turn(start, effects) => RunLater(cfg, l, Started(cfg, l, start), effects, 0);
  }

  /** Every turn brings the overdue item one place forward, until it has been resumed. */
  lemma {:induction false} MovesUp(cfg: Config, l: Loop, run: seq<Event>, n: nat, time: int)
    requires Inv(l) && |l.resumed| <= n < |l.enqueued| && Overdue(cfg, l, time) && After(run, time)
    ensures var m := Exec(cfg, l, run);
      |m.resumed| > n || (|m.resumed| >= |l.resumed| + Turns(run) && m.readySince == l.readySince &&
        |m.enqueued| >= |l.enqueued|)
  {
    if run != [] {
      var front, e := run[..|run| - 1], run[|run| - 1];
      var m := Exec(cfg, l, front);
      MovesUp(cfg, l, front, n, time);
      CountersAndOrder(cfg, l, front);
      StepResumed(cfg, m, e);
      if |m.resumed| <= n {
        StepLater(cfg, m, e, n);
        if e.Turn? {
          assert Overdue(cfg, m, e.start);
          OverdueTurn(cfg, m, e.start, e.effects);
        }
      }
    }
  }

  /**
   Once ordinary work is overdue, the item at place `k` of its queue is resumed within `k + 1` turns, whatever resumed
   work and completions enqueue in the meantime: it is the one at place `k` of what is resumed from now on.
   */
  lemma NeverStarved(cfg: Config, l: Loop, run: seq<Event>, k: nat, time: int)
    requires Inv(l) && k < |l.ready| && Overdue(cfg, l, time) && After(run, time) && Turns(run) >= k + 1
    ensures var m := Exec(cfg, l, run); |m.resumed| > |l.resumed| + k && m.resumed[|l.resumed| + k] == l.ready[k]
  {
    var n := |l.resumed| + k;
    MovesUp(cfg, l, run, n, time);
    CountersAndOrder(cfg, l, run);
    EnqueuedPrefix(cfg, l, run);
    var m := Exec(cfg, l, run);
    assert m.enqueued[n] == l.enqueued[n] == l.ready[k];
  }

  lemma {:induction false} EnqueuedAllPrefix(l: Loop, es: seq<Enqueue>)
    ensures l.enqueued <= EnqueuedAll(l, es).enqueued
  {
    if es != [] {
      EnqueuedAllPrefix(l, es[..|es| - 1]);
    }
  }

  lemma {:induction false} RunPrefix(cfg: Config, l: Loop, t: Tally, effects: seq<Effect>)
    ensures l.enqueued <= Run(cfg, l, t, effects).enqueued
    decreases |effects|, |l.ready| + |l.completions|
  {
    if !Stops(cfg, l, t) {
      var p := Popped(l, t);
      if effects == [] {
        RunPrefix(cfg, p, Counted(l, t), []);
      } else {
        EnqueuedAllPrefix(p, effects[0].enqueues);
        RunPrefix(cfg, EnqueuedAll(p, effects[0].enqueues), Counted(l, t), effects[1..]);
      }
    }
  }

  lemma {:induction false} EnqueuedPrefix(cfg: Config, l: Loop, run: seq<Event>)
    ensures l.enqueued <= Exec(cfg, l, run).enqueued
  {
    if run != [] {
      var m, e := Exec(cfg, l, run[..|run| - 1]), run[|run| - 1];
      EnqueuedPrefix(cfg, l, run[..|run| - 1]);
      match e
      case Schedule(_) =>
      case Turn(start, effects) => RunPrefix(cfg, m, Started(cfg, m, start), effects);
    }
  }

  // ----- Budgets -----

  /** How many completions a turn may still put before ordinary work that is waiting. */
  ghost predicate WithinBudget(t: Tally, done: int) {
    (t.overdue ==> done == 0) && (!t.overdue && t.budget != 0 && t.completions <= t.budget ==>
      done <= t.budget - t.completions)
  }

  lemma {:induction false} EnqueuedAllCompletions(l: Loop, es: seq<Enqueue>)
    ensures EnqueuedAll(l, es).completionResumed == l.completionResumed
  {
    if es != [] {
      EnqueuedAllCompletions(l, es[..|es| - 1]);
    }
  }

  lemma {:induction false} RunBudget(cfg: Config, l: Loop, t: Tally, effects: seq<Effect>, n: nat)
    requires Inv(l) && n <= |l.enqueued|
    ensures var m := Run(cfg, l, t, effects);
      |m.resumed| < n ==> WithinBudget(t, |m.completionResumed| - |l.completionResumed|)
    decreases |effects|, |l.ready| + |l.completions|
  {
    if !Stops(cfg, l, t) {
      var p, u := Popped(l, t), Counted(l, t);
      PoppedKeeps(l, t);
      if effects == [] {
        RunBudget(cfg, p, u, [], n);
        RunLater(cfg, p, u, [], 0);
      } else {
        var q := EnqueuedAll(p, effects[0].enqueues);
        EnqueuedAllKeeps(p, effects[0].enqueues);
        EnqueuedAllLater(p, effects[0].enqueues, 0);
        EnqueuedAllCompletions(p, effects[0].enqueues);
        RunBudget(cfg, q, u, effects[1..], n);
        RunLater(cfg, q, u, effects[1..], 0);
      }
    }
  }

  /** The oldest item of a non-empty queue, as far as the queue knows, has waited at least the given time. */
  predicate Waited(queue: seq<int>, since: int, age: nat, now: int) {
    queue != [] && age != 0 && now - since >= age
  }

  /**
   Until all the ordinary work that was waiting when the turn began has been resumed, a turn resumes no completion if
   ordinary work was overdue, no more than `maxUrgent` if only completions were and there is such a number, and no more
   than `maxCompletion` in every other case; a bound of zero means none.
   */
  lemma CompletionsWait(cfg: Config, l: Loop, start: int, effects: seq<Effect>)
    requires Inv(l) && |Step(cfg, l, Turn(start, effects)).resumed| < |l.enqueued|
    ensures var m := Step(cfg, l, Turn(start, effects));
      var done := |m.completionResumed| - |l.completionResumed|;
      if Waited(l.ready, l.readySince, cfg.normalAge, start) then done == 0
      else if Waited(l.completions, l.completionSince, cfg.completionAge, start) && cfg.maxUrgent != 0 then
        done <= cfg.maxUrgent
      else cfg.maxCompletion != 0 ==> done <= cfg.maxCompletion
  {
    RunBudget(cfg, l, Started(cfg, l, start), effects, |l.enqueued|);
  }

  function Resumed(l: Loop): nat {
    |l.resumed| + |l.completionResumed|
  }

  /** A turn resumes no more work than its budget, whatever it enqueues. */
  lemma {:induction false} TurnBounded(cfg: Config, l: Loop, t: Tally, effects: seq<Effect>)
    requires cfg.maxWork != 0 && t.resumed <= cfg.maxWork
    ensures Resumed(Run(cfg, l, t, effects)) <= Resumed(l) + cfg.maxWork - t.resumed
    decreases |effects|, |l.ready| + |l.completions|
  {
    if !Stops(cfg, l, t) {
      var p, u := Popped(l, t), Counted(l, t);
      if effects == [] {
        TurnBounded(cfg, p, u, []);
      } else {
        var q := EnqueuedAll(p, effects[0].enqueues);
        EnqueuedAllCompletions(p, effects[0].enqueues);
        EnqueuedAllResumed(p, effects[0].enqueues);
        TurnBounded(cfg, q, u, effects[1..]);
      }
    }
  }

  lemma {:induction false} EnqueuedAllResumed(l: Loop, es: seq<Enqueue>)
    ensures EnqueuedAll(l, es).resumed == l.resumed
  {
    if es != [] {
      EnqueuedAllResumed(l, es[..|es| - 1]);
    }
  }

  // ----- How a turn ends -----

  /** A turn that has resumed `done` pieces and so come from `l` to `m` had a reason to end, and none before. */
  ghost predicate Ends(cfg: Config, m: Loop, t: Tally, effects: seq<Effect>, done: int) {
    && done >= 0
    && ((m.ready == [] && m.completions == []) || (cfg.maxWork != 0 && t.resumed + done >= cfg.maxWork)
        || (cfg.timeBudget != 0 && 1 <= done <= |effects| && effects[done - 1].now - t.start >= cfg.timeBudget))
    && (forall i :: 0 <= i < done - 1 && i < |effects| ==>
          cfg.timeBudget == 0 || effects[i].now - t.start < cfg.timeBudget)
  }

  lemma EndsLater(cfg: Config, m: Loop, t: Tally, u: Tally, effects: seq<Effect>, done: int)
    requires effects != [] && u.start == t.start && u.resumed == t.resumed + 1 && Ends(cfg, m, u, effects[1..], done)
    requires cfg.timeBudget == 0 || effects[0].now - t.start < cfg.timeBudget
    ensures Ends(cfg, m, t, effects, done + 1)
  {
    forall i | 0 <= i < done && i < |effects|
      ensures cfg.timeBudget == 0 || effects[i].now - t.start < cfg.timeBudget
    {
      if i > 0 {
        assert effects[i] == effects[1..][i - 1];
      }
    }
    if 1 <= done <= |effects[1..]| {
      assert effects[1..][done - 1] == effects[done];
    }
  }

  lemma TakenResumed(l: Loop, t: Tally, es: seq<Enqueue>)
    requires l.ready != [] || l.completions != []
    ensures Resumed(Popped(l, t)) == Resumed(l) + 1 && Resumed(EnqueuedAll(Popped(l, t), es)) == Resumed(l) + 1
  {
    EnqueuedAllCompletions(Popped(l, t), es);
    EnqueuedAllResumed(Popped(l, t), es);
  }

  lemma {:induction false} RunEnds(cfg: Config, l: Loop, t: Tally, effects: seq<Effect>)
    ensures var m := Run(cfg, l, t, effects); Ends(cfg, m, t, effects, Resumed(m) - Resumed(l))
    decreases |effects|, |l.ready| + |l.completions|
  {
    if !Stops(cfg, l, t) {
      var p, u := Popped(l, t), Counted(l, t);
      if effects == [] {
        TakenResumed(l, t, []);
        RunEnds(cfg, p, u, []);
      } else {
        var q := EnqueuedAll(p, effects[0].enqueues);
        TakenResumed(l, t, effects[0].enqueues);
        if cfg.timeBudget == 0 || effects[0].now - t.start < cfg.timeBudget {
          var m := Run(cfg, q, u, effects[1..]);
          RunEnds(cfg, q, u, effects[1..]);
          EndsLater(cfg, m, t, u, effects, Resumed(m) - Resumed(q));
        }
      }
    }
  }

  /**
   A turn ends only when both queues are empty, when it has resumed `maxWork` pieces, or when the piece it resumed last
   has used up the time budget, which no piece before it had; a budget of zero ends nothing.
   */
  lemma TurnEnds(cfg: Config, l: Loop, start: int, effects: seq<Effect>)
    ensures var m := Step(cfg, l, Turn(start, effects));
      var done := Resumed(m) - Resumed(l);
      && done >= 0 && (cfg.maxWork != 0 ==> done <= cfg.maxWork)
      && ((m.ready == [] && m.completions == []) || done == cfg.maxWork != 0
          || (cfg.timeBudget != 0 && 1 <= done <= |effects| && effects[done - 1].now - start >= cfg.timeBudget))
      && (forall i :: 0 <= i < done - 1 && i < |effects| ==>
            cfg.timeBudget == 0 || effects[i].now - start < cfg.timeBudget)
  {
    var t := Started(cfg, l, start);
    RunEnds(cfg, l, t, effects);
    if cfg.maxWork != 0 {
      TurnBounded(cfg, l, t, effects);
    }
  }

  // ----- Completions do get their turn -----

  lemma {:induction false} EnqueuedAllWaiting(l: Loop, es: seq<Enqueue>)
    ensures l.completions <= EnqueuedAll(l, es).completions
  {
    if es != [] {
      EnqueuedAllWaiting(l, es[..|es| - 1]);
    }
  }

  /** Completions are resumed in order, from those that wait. */
  lemma {:induction false} RunCompletions(cfg: Config, l: Loop, t: Tally, effects: seq<Effect>)
    ensures l.completionResumed <= Run(cfg, l, t, effects).completionResumed
    ensures |l.resumed| <= |Run(cfg, l, t, effects).resumed|
    decreases |effects|, |l.ready| + |l.completions|
  {
    if !Stops(cfg, l, t) {
      var p, u := Popped(l, t), Counted(l, t);
      if effects == [] {
        RunCompletions(cfg, p, u, []);
      } else {
        var q := EnqueuedAll(p, effects[0].enqueues);
        EnqueuedAllCompletions(p, effects[0].enqueues);
        EnqueuedAllResumed(p, effects[0].enqueues);
        RunCompletions(cfg, q, u, effects[1..]);
      }
    }
  }

  /** Where ordinary work is not overdue, the first thing a turn resumes is the first completion that waits. */
  lemma CompletionFirst(cfg: Config, l: Loop, start: int, effects: seq<Effect>)
    requires Inv(l) && l.completions != [] && !Waited(l.ready, l.readySince, cfg.normalAge, start)
    ensures var m := Step(cfg, l, Turn(start, effects)); l.completionResumed + [l.completions[0]] <= m.completionResumed
  {
    var t := Started(cfg, l, start);
    var p := PopCompletion(l);
    assert CompletionNext(l, t);
    if effects == [] {
      RunCompletions(cfg, p, Counted(l, t), []);
    } else {
      EnqueuedAllCompletions(p, effects[0].enqueues);
      RunCompletions(cfg, EnqueuedAll(p, effects[0].enqueues), Counted(l, t), effects[1..]);
    }
  }

  lemma {:induction false} RunPriority(cfg: Config, l: Loop, t: Tally, effects: seq<Effect>)
    requires !t.overdue && |Run(cfg, l, t, effects).resumed| > |l.resumed|
    ensures var done := |Run(cfg, l, t, effects).completionResumed| - |l.completionResumed|;
      done >= |l.completions| || (t.budget != 0 && t.completions + done >= t.budget)
    decreases |effects|, |l.ready| + |l.completions|
  {
    if !Stops(cfg, l, t) {
      var p, u := Popped(l, t), Counted(l, t);
      RunCompletions(cfg, l, t, effects);
      if CompletionNext(l, t) {
        if effects == [] {
          RunPriority(cfg, p, u, []);
        } else {
          var q := EnqueuedAll(p, effects[0].enqueues);
          EnqueuedAllCompletions(p, effects[0].enqueues);
          EnqueuedAllResumed(p, effects[0].enqueues);
          EnqueuedAllWaiting(p, effects[0].enqueues);
          if cfg.timeBudget == 0 || effects[0].now - t.start < cfg.timeBudget {
            RunPriority(cfg, q, u, effects[1..]);
          }
        }
      }
    }
  }

  /**
   Where ordinary work is not overdue, a turn comes to resume it only after all the completions that waited when the
   turn began, or after as many as the bound on them allows.
   */
  lemma CompletionsBefore(cfg: Config, l: Loop, start: int, effects: seq<Effect>)
    requires Inv(l) && !Waited(l.ready, l.readySince, cfg.normalAge, start)
    requires |Step(cfg, l, Turn(start, effects)).resumed| > |l.resumed|
    ensures var done := |Step(cfg, l, Turn(start, effects)).completionResumed| - |l.completionResumed|;
      done >= |l.completions| || done >= (
        if Waited(l.completions, l.completionSince, cfg.completionAge, start) && cfg.maxUrgent != 0 then cfg.maxUrgent
        else cfg.maxCompletion) > 0
  {
    RunPriority(cfg, l, Started(cfg, l, start), effects);
  }

  // ----- Ages count from the right moment -----

  lemma {:induction false} ExecLater(cfg: Config, l: Loop, run: seq<Event>, n: nat)
    requires Inv(l)
    ensures Later(l, Exec(cfg, l, run), n)
  {
    if run != [] {
      var front, e := run[..|run| - 1], run[|run| - 1];
      var m := Exec(cfg, l, front);
      ExecLater(cfg, l, front, n);
      CountersAndOrder(cfg, l, front);
      match e {
        case Schedule(enq) =>
        case Turn(start, effects) => RunLater(cfg, m, Started(cfg, m, start), effects, n);
      }
    }
  }

  /**
   Ordinary work that is scheduled at a time when none is waiting has been resumed, at the latest, when the first turn
   ends that starts `normalAge` later, whatever happens in between.
   */
  lemma ResumedInTime(cfg: Config, l: Loop, work: int, at: int, run: seq<Event>, start: int, effects: seq<Effect>)
    requires Inv(l) && l.ready == [] && cfg.normalAge != 0 && start >= at + cfg.normalAge
    ensures var m := Step(cfg, Exec(cfg, Enqueued(l, Enqueue(Normal, work, at)), run), Turn(start, effects));
      l.resumed + [work] <= m.resumed
  {
    var e := Enqueue(Normal, work, at);
    var l1 := Enqueued(l, e);
    EnqueuedKeeps(l, e);
    var n := |l.resumed|;
    var m := Exec(cfg, l1, run);
    ExecLater(cfg, l1, run, n);
    CountersAndOrder(cfg, l1, run);
    EnqueuedPrefix(cfg, l1, run);
    if |m.resumed| <= n {
      OverdueTurn(cfg, m, start, effects);
    } else {
      StepResumed(cfg, m, Turn(start, effects));
    }
    RunKeeps(cfg, m, Started(cfg, m, start), effects);
    RunPrefix(cfg, m, Started(cfg, m, start), effects);
    var k := Step(cfg, m, Turn(start, effects));
    assert l1.enqueued <= k.enqueued && k.resumed == k.enqueued[..|k.resumed|];
    assert l1.enqueued == l.resumed + [work];
  }

  /** The same as `Later` for the queue of completions. */
  ghost predicate LaterDone(l: Loop, m: Loop, n: nat) {
    && |l.completionResumed| <= |m.completionResumed| && |l.completionEnqueued| <= |m.completionEnqueued|
    && (|m.completionResumed| <= n < |l.completionEnqueued| ==> m.completionSince == l.completionSince)
  }

  lemma {:induction false} EnqueuedAllLaterDone(l: Loop, es: seq<Enqueue>, n: nat)
    requires Inv(l)
    ensures LaterDone(l, EnqueuedAll(l, es), n)
  {
    if es != [] {
      EnqueuedAllLaterDone(l, es[..|es| - 1], n);
      EnqueuedAllKeeps(l, es[..|es| - 1]);
    }
  }

  lemma PoppedLaterDone(l: Loop, t: Tally, n: nat)
    requires Inv(l) && (l.ready != [] || l.completions != [])
    ensures LaterDone(l, Popped(l, t), n)
  {
    if CompletionNext(l, t) && l.completionDepth == 1 {
      assert |Popped(l, t).completionResumed| == |l.completionEnqueued|;
    }
  }

  lemma {:induction false} RunLaterDone(cfg: Config, l: Loop, t: Tally, effects: seq<Effect>, n: nat)
    requires Inv(l)
    ensures LaterDone(l, Run(cfg, l, t, effects), n)
    decreases |effects|, |l.ready| + |l.completions|
  {
    if !Stops(cfg, l, t) {
      var p := Popped(l, t);
      PoppedKeeps(l, t);
      PoppedLaterDone(l, t, n);
      if effects == [] {
        RunLaterDone(cfg, p, Counted(l, t), [], n);
      } else {
        EnqueuedAllKeeps(p, effects[0].enqueues);
        EnqueuedAllLaterDone(p, effects[0].enqueues, n);
        RunLaterDone(cfg, EnqueuedAll(p, effects[0].enqueues), Counted(l, t), effects[1..], n);
      }
    }
  }

  lemma {:induction false} ExecLaterDone(cfg: Config, l: Loop, run: seq<Event>, n: nat)
    requires Inv(l)
    ensures LaterDone(l, Exec(cfg, l, run), n)
  {
    if run != [] {
      var front, e := run[..|run| - 1], run[|run| - 1];
      var m := Exec(cfg, l, front);
      ExecLaterDone(cfg, l, front, n);
      CountersAndOrder(cfg, l, front);
      match e {
        case Schedule(enq) =>
        case Turn(start, effects) => RunLaterDone(cfg, m, Started(cfg, m, start), effects, n);
      }
    }
  }

  /** The age of each queue counts from when it ceased to be empty, until what came then is resumed. */
  lemma AgeCounts(cfg: Config, l: Loop, e: Enqueue, run: seq<Event>)
    requires Inv(l) && (if e.lane == Normal then l.ready == [] else l.completions == [])
    ensures var m := Exec(cfg, Enqueued(l, e), run);
      if e.lane == Normal then |m.resumed| > |l.resumed| || m.readySince == e.at
      else |m.completionResumed| > |l.completionResumed| || m.completionSince == e.at
  {
    EnqueuedKeeps(l, e);
    ExecLater(cfg, Enqueued(l, e), run, |l.resumed|);
    ExecLaterDone(cfg, Enqueued(l, e), run, |l.completionResumed|);
  }

  // ----- The loop object -----

  class LUringLoop {
    const cfg: Config
    var ready: seq<int>
    var completions: seq<int>
    var readyDepth: int
    var completionDepth: int
    var readySince: int
    var completionSince: int
    ghost var enqueued: seq<int>
    ghost var resumed: seq<int>
    ghost var completionEnqueued: seq<int>
    ghost var completionResumed: seq<int>

    constructor (cfg: Config)
      ensures this.cfg == cfg && View() == Idle()
    {
      this.cfg := cfg;
      ready, completions, readyDepth, completionDepth, readySince, completionSince := [], [], 0, 0, 0, 0;
      enqueued, resumed, completionEnqueued, completionResumed := [], [], [], [];
    }

    ghost function View(): Loop
      reads this
    {
      Loop(ready, completions, readyDepth, completionDepth, readySince, completionSince,
           enqueued, resumed, completionEnqueued, completionResumed)
    }

    method ScheduleWork(work: int, now: int)
      modifies this
      ensures View() == Enqueued(old(View()), Enqueue(Normal, work, now))
      ensures ready == old(ready) + [work] && completions == old(completions) && resumed == old(resumed)
    {
      if readyDepth == 0 {
        readySince := now;
      }
      readyDepth := readyDepth + 1;
      ready := ready + [work];
      enqueued := enqueued + [work];
    }

    method ScheduleCompletion(work: int, now: int)
      modifies this
      ensures View() == Enqueued(old(View()), Enqueue(Completion, work, now))
      ensures completions == old(completions) + [work] && ready == old(ready)
      ensures completionResumed == old(completionResumed)
    {
      if completionDepth == 0 {
        completionSince := now;
      }
      completionDepth := completionDepth + 1;
      completions := completions + [work];
      completionEnqueued := completionEnqueued + [work];
    }

    /** The resumed work runs and schedules what it schedules. */
    method RunWork(enqueues: seq<Enqueue>)
      modifies this
      ensures View() == EnqueuedAll(old(View()), enqueues)
    {
      for i := 0 to |enqueues|
        invariant View() == EnqueuedAll(old(View()), enqueues[..i])
      {
        assert enqueues[..i + 1][..i] == enqueues[..i];
        match enqueues[i].lane {
          case Normal => ScheduleWork(enqueues[i].work, enqueues[i].at);
          case Completion => ScheduleCompletion(enqueues[i].work, enqueues[i].at);
        }
      }
      assert enqueues[..|enqueues|] == enqueues;
    }

    method PopFrontReady()
      requires ready != []
      modifies this
      ensures View() == PopReady(old(View()))
    {
      resumed := resumed + [ready[0]];
      ready := ready[1..];
      readyDepth := readyDepth - 1;
      if readyDepth == 0 {
        readySince := 0;
      }
    }

    method PopFrontCompletion()
      requires completions != []
      modifies this
      ensures View() == PopCompletion(old(View()))
    {
      completionResumed := completionResumed + [completions[0]];
      completions := completions[1..];
      completionDepth := completionDepth - 1;
      if completionDepth == 0 {
        completionSince := 0;
      }
    }

    /** Takes the next piece of work off one of the queues. */
    method ResumeOne(t: Tally) returns (completion: bool)
      requires ready != [] || completions != []
      modifies this
      ensures View() == Popped(old(View()), t) && (completion <==> CompletionNext(old(View()), t))
    {
      completion := completions != [] &&
        (ready == [] || (!t.overdue && (t.budget == 0 || t.completions < t.budget)));
      if completion {
        PopFrontCompletion();
      } else {
        PopFrontReady();
      }
    }

    method RunReady(start: int, effects: seq<Effect>)
      modifies this
      ensures View() == Step(cfg, old(View()), Turn(start, effects))
    {
      var urgent := completionDepth > 0 && cfg.completionAge != 0 && start - completionSince >= cfg.completionAge;
      var overdue := readyDepth > 0 && cfg.normalAge != 0 && start - readySince >= cfg.normalAge;
      var budget := if urgent && !overdue && cfg.maxUrgent != 0 then cfg.maxUrgent else cfg.maxCompletion;
      RunTurn(Tally(start, overdue, budget, 0, 0), effects);
    }

    method RunTurn(tally: Tally, effects: seq<Effect>)
      modifies this
      ensures View() == Run(cfg, old(View()), tally, effects)
    {
      var t, left := tally, effects;
      while (ready != [] || completions != []) && (cfg.maxWork == 0 || t.resumed < cfg.maxWork)
        invariant Run(cfg, View(), t, left) == Run(cfg, old(View()), tally, effects) && t.start == tally.start
        decreases |left|, |ready| + |completions|
      {
        var completion := ResumeOne(t);
        t := t.(resumed := t.resumed + 1, completions := t.completions + if completion then 1 else 0);
        if left != [] {
          RunWork(left[0].enqueues);
          var now := left[0].now;
          left := left[1..];
          if cfg.timeBudget != 0 && now - t.start >= cfg.timeBudget { return; }
        }
      }
    }
  }
}
