/**
 When all timers of the queue are woken in time: as long as nobody, neither a caller nor a callback, adds a timer that
 overtakes the compatibility timeout in flight.
 */
module TimerPunctuality {

  import opened TimerQueue

  // ----- Adds that overtake nothing -----

  /**
   A request while timers due by `now` are being handled; a timer that is itself due by then is handled at once. Outside
   of completions `now` is zero.
   */
  ghost predicate Mild(q: Queue, now: int, r: Request) {
    r.Cancel? || r.when <= 0 || r.when <= now || !Overtakes(q, r.when)
  }

  ghost predicate AllMild(q: Queue, now: int, script: seq<Request>) {
    script == [] ||
    (var n := |script| - 1; AllMild(q, now, script[..n]) && Mild(ServeAll(q, script[..n]), now, script[n]))
  }

  /** None of the callbacks that run in `ProcessExpired` overtakes. */
  ghost predicate MildCallbacks(q: Queue, now: int, scripts: seq<seq<Request>>)
    decreases |scripts|, |q.timers|
  {
    if q.timers == [] || now < q.timers[0].when || scripts == [] then true
    else
      var popped := q.(timers := q.timers[1..], ran := q.ran + [q.timers[0].id]);
      AllMild(popped, now, scripts[0]) && MildCallbacks(ServeAll(popped, scripts[0]), now, scripts[1..])
  }

  ghost predicate MildEvent(q: Queue, e: Event) {
    match e
    case Ask(r) => Mild(q, 0, r)
    case DriverDone(now, scripts) =>
      MildCallbacks(q.(driver := Unarmed, driverArmed := false, driverDeadline := 0), now, scripts)
    case ControlDone(now, scripts) =>
      q.controlIsFallback ==>
        MildCallbacks(
          q.(control := Free, controlPending := false, controlIsFallback := false, fallbackArmed := false), now,
            scripts)
    case _ => true
  }

  ghost predicate MildRun(run: seq<Event>) {
    run == [] || (MildRun(run[..|run| - 1]) && MildEvent(Exec(run[..|run| - 1]), run[|run| - 1]))
  }

  // ----- What they keep -----

  /** The compatibility timeout is for a deadline before the driver's. */
  ghost predicate Early(q: Queue) {
    (q.control.Sleeping? || q.control.Woken?) && q.driver != Unarmed ==> q.control.at < q.driver.at
  }

  /** While it sleeps and the driver has not fired, no timer that is not due by `now` is due before it. */
  ghost predicate Asleep(q: Queue, now: int) {
    && (forall t :: t in q.timers ==> 0 < t.when)
    && (q.control.Sleeping? && !q.driver.Fired? ==>
        forall t :: t in q.timers ==> t.when <= now || q.control.at <= t.when)
  }

  ghost predicate Calm(q: Queue, now: int) {
    Agrees(q) && Tidy(q) && Early(q) && Asleep(q, now)
  }

  lemma ReconcileCalm(q: Queue, now: int)
    requires Calm(q, now)
    ensures Calm(Reconcile(q), now)
  {
    ReconcileKeeps(q);
    ReconcileTimers(q);
    SameTimersTidy(q, Reconcile(q));
    if q.timers != [] {
      SortedTail(q.timers);
    }
  }

  lemma AddCalm(q: Queue, now: int, when: int)
    requires Calm(q, now) && Mild(q, now, Add(when)) && when > 0
    ensures Calm(q.(timers := Insert(q.timers, Timer(when, q.next)), next := q.next + 1), now)
  {
    var t := Timer(when, q.next);
    var p := q.(timers := Insert(q.timers, t), next := q.next + 1);
    InsertHas(q.timers, t);
    ServeTidy(q, Add(when));
    ReconcileTimers(p);
    SameTimersTidy(Serve(q, Add(when)), p);
  }

  lemma CancelCalm(q: Queue, now: int, id: nat)
    requires Calm(q, now)
    ensures Calm(q.(timers := Remove(q.timers, id), cancelled := q.cancelled + {id}), now)
  {
    RemoveSorted(q.timers, id);
  }

  lemma ServeCalm(q: Queue, now: int, r: Request)
    requires Calm(q, now) && Mild(q, now, r)
    ensures Calm(Serve(q, r), now)
  {
    match r
    case Add(when) =>
      if when > 0 {
        AddCalm(q, now, when);
        ReconcileCalm(q.(timers := Insert(q.timers, Timer(when, q.next)), next := q.next + 1), now);
      }
    case Cancel(id) =>
      CancelCalm(q, now, id);
      ReconcileCalm(q.(timers := Remove(q.timers, id), cancelled := q.cancelled + {id}), now);
  }

  lemma {:induction false} ServeAllCalm(q: Queue, now: int, script: seq<Request>)
    requires Calm(q, now) && AllMild(q, now, script)
    ensures Calm(ServeAll(q, script), now)
  {
    if script != [] {
      ServeAllCalm(q, now, script[..|script| - 1]);
      ServeCalm(ServeAll(q, script[..|script| - 1]), now, script[|script| - 1]);
    }
  }

  lemma PopCalm(q: Queue, now: int)
    requires Calm(q, now) && q.timers != []
    ensures Calm(q.(timers := q.timers[1..], ran := q.ran + [q.timers[0].id]), now)
  {
    PopTidy(q);
  }

  lemma {:induction false} ProcessCalm(q: Queue, now: int, scripts: seq<seq<Request>>)
    requires Calm(q, now) && MildCallbacks(q, now, scripts)
    ensures Calm(ProcessExpired(q, now, scripts), now)
    decreases |scripts|, |q.timers|
  {
    if q.timers != [] && q.timers[0].when <= now {
      var popped := q.(timers := q.timers[1..], ran := q.ran + [q.timers[0].id]);
      PopCalm(q, now);
      if scripts == [] {
        ProcessCalm(popped, now, []);
      } else {
        ServeAllCalm(popped, now, scripts[0]);
        ProcessCalm(ServeAll(popped, scripts[0]), now, scripts[1..]);
      }
    }
  }

  /** After the timers that were due have run, none of the others is due before the compatibility timeout. */
  lemma ProcessedCalm(q: Queue, now: int, scripts: seq<seq<Request>>)
    requires Calm(q, now) && MildCallbacks(q, now, scripts)
    ensures Calm(Reconcile(ProcessExpired(q, now, scripts)), 0)
  {
    ProcessCalm(q, now, scripts);
    ProcessTidy(q, now, scripts);
    ReconcileCalm(ProcessExpired(q, now, scripts), 0);
  }

  lemma DriverCalm(q: Queue, now: int, scripts: seq<seq<Request>>)
    requires Calm(q, 0) && q.driver.Fired? && q.driver.at <= now && MildEvent(q, DriverDone(now, scripts))
    ensures Calm(DriverCompleted(q, now, scripts), 0)
  {
    var p := q.(driver := Unarmed, driverArmed := false, driverDeadline := 0);
    SameTimersTidy(q, p);
    ProcessedCalm(p, now, scripts);
  }

  lemma ControlCalm(q: Queue, now: int, scripts: seq<seq<Request>>)
    requires Calm(q, 0) && (q.control.Updated? || q.control.Woken?) && MildEvent(q, ControlDone(now, scripts))
    ensures Calm(ControlCompleted(q, now, scripts), 0)
  {
    var p := q.(control := Free, controlPending := false);
    if q.controlIsFallback {
      p := p.(controlIsFallback := false, fallbackArmed := false);
      SameTimersTidy(q, p);
      ProcessedCalm(p, now, scripts);
    } else {
      p := if q.control == Updated(true) then p.(driverDeadline := q.requestedDeadline)
        else p.(updateSupported := false);
      SameTimersTidy(q, p);
      ReconcileCalm(p, 0);
    }
  }

  lemma StepCalm(q: Queue, e: Event)
    requires Calm(q, 0) && MildEvent(q, e)
    ensures Calm(Step(q, e), 0)
  {
    match e
    case Ask(r) => ServeCalm(q, 0, r);
    case DriverDone(now, scripts) =>
      if q.driver.Fired? && q.driver.at <= now {
        DriverCalm(q, now, scripts);
      }
    case ControlDone(now, scripts) =>
      if q.control.Updated? || q.control.Woken? {
        ControlCalm(q, now, scripts);
      }
    case _ => KernelCalm(q, e);
  }

  lemma KernelCalm(q: Queue, e: Event)
    requires Calm(q, 0) && (e.Fire? || e.Apply? || e.Wake?)
    ensures Calm(Step(q, e), 0)
  {
    SameTimersTidy(q, Step(q, e));
  }

  lemma {:induction false} ExecCalm(run: seq<Event>)
    requires MildRun(run)
    ensures Calm(Exec(run), 0)
  {
    if run != [] {
      ExecCalm(run[..|run| - 1]);
      StepCalm(Exec(run[..|run| - 1]), run[|run| - 1]);
    }
  }

  // ----- The theorems -----

  lemma {:induction false} MildPrefix(run: seq<Event>, n: nat)
    requires MildRun(run) && n <= |run|
    ensures MildRun(run[..n])
    decreases |run|
  {
    if n == |run| {
      assert run[..n] == run;
    } else {
      MildPrefix(run[..|run| - 1], n);
      assert run[..|run| - 1][..n] == run[..n];
    }
  }

  /** The kernel wakes the loop in time for every timer in the queue, after every event of the run. */
  ghost predicate InTimeThroughout(run: seq<Event>) {
    forall n: nat, t :: n <= |run| && t in Exec(run[..n]).timers ==> WakesBy(Exec(run[..n]), t.when)
  }

  /** It does in every run in which no caller and no callback adds a timer that overtakes. */
  lemma AlwaysInTime(run: seq<Event>)
    requires MildRun(run)
    ensures InTimeThroughout(run)
  {
    forall n: nat, t | n <= |run| && t in Exec(run[..n]).timers ensures WakesBy(Exec(run[..n]), t.when) {
      MildPrefix(run, n);
      ExecCalm(run[..n]);
      WokenUnlessAsleep(run[..n], t);
    }
  }

  /** A caller's add that overtakes makes its timer late at once, after any run. */
  lemma OvertakingLate(run: seq<Event>, when: int)
    requires when > 0 && !MildEvent(Exec(run), Ask(Add(when)))
    ensures var q := Exec(run + [Ask(Add(when))]);
      Timer(when, Exec(run).next) in q.timers && !WakesBy(q, when)
  {
    assert (run + [Ask(Add(when))])[..|run|] == run;
    AddedInTime(run, when);
    var t, q := Timer(when, Exec(run).next), Exec(run);
    InsertHas(q.timers, t);
    ReconcileTimers(q.(timers := Insert(q.timers, t), next := q.next + 1));
  }

  ghost predicate OnlyCancels(script: seq<Request>) {
    forall r :: r in script ==> r.Cancel?
  }

  /** Callbacks of the run add nothing. */
  ghost predicate QuietCallbacks(run: seq<Event>) {
    forall i :: 0 <= i < |run| && (run[i].DriverDone? || run[i].ControlDone?) ==>
      forall script :: script in run[i].scripts ==> OnlyCancels(script)
  }

  lemma {:induction false} CancelsMild(q: Queue, now: int, script: seq<Request>)
    requires OnlyCancels(script)
    ensures AllMild(q, now, script)
  {
    if script != [] {
      CancelsMild(q, now, script[..|script| - 1]);
    }
  }

  lemma {:induction false} QuietMild(q: Queue, now: int, scripts: seq<seq<Request>>)
    requires forall script :: script in scripts ==> OnlyCancels(script)
    ensures MildCallbacks(q, now, scripts)
    decreases |scripts|
  {
    if q.timers != [] && q.timers[0].when <= now && scripts != [] {
      var popped := q.(timers := q.timers[1..], ran := q.ran + [q.timers[0].id]);
      CancelsMild(popped, now, scripts[0]);
      QuietMild(ServeAll(popped, scripts[0]), now, scripts[1..]);
    }
  }

  lemma OnlyAddsOvertake(q: Queue, e: Event)
    requires (e.DriverDone? || e.ControlDone?) ==> forall script :: script in e.scripts ==> OnlyCancels(script)
    requires !MildEvent(q, e)
    ensures e.Ask? && e.request.Add? && e.request.when > 0
  {
    match e
    case DriverDone(now, scripts) =>
      QuietMild(q.(driver := Unarmed, driverArmed := false, driverDeadline := 0), now, scripts);
    case ControlDone(now, scripts) =>
      QuietMild(
        q.(control := Free, controlPending := false, controlIsFallback := false, fallbackArmed := false), now, scripts);
    case _ =>
  }

  lemma InTimeFront(run: seq<Event>)
    requires InTimeThroughout(run) && run != []
    ensures InTimeThroughout(run[..|run| - 1])
  {
    var front := run[..|run| - 1];
    forall n: nat, t | n <= |front| && t in Exec(front[..n]).timers ensures WakesBy(Exec(front[..n]), t.when) {
      assert front[..n] == run[..n];
    }
  }

  /** Where only callers add timers, all are woken in time throughout a run exactly if no add overtakes. */
  lemma {:induction false} InTimeIffMild(run: seq<Event>)
    requires QuietCallbacks(run)
    ensures InTimeThroughout(run) <==> MildRun(run)
  {
    if MildRun(run) {
      AlwaysInTime(run);
    } else if InTimeThroughout(run) {
      var front, e := run[..|run| - 1], run[|run| - 1];
      assert run == front + [e] && run[..|run|] == run;
      InTimeFront(run);
      InTimeIffMild(front);
      OnlyAddsOvertake(Exec(front), e);
      OvertakingLate(front, e.request.when);
    }
  }

  // ----- Callbacks that overtake -----

  /** While the compatibility timeout sleeps, no request touches it or the driver. */
  lemma ServeAsleep(q: Queue, r: Request)
    requires q.controlPending && q.control.Sleeping?
    ensures var p := Serve(q, r); p.control == q.control && p.driver == q.driver && p.controlPending
  {
  }

  lemma {:induction false} ServeAllAsleep(q: Queue, script: seq<Request>)
    requires q.controlPending && q.control.Sleeping?
    ensures var p := ServeAll(q, script); p.control == q.control && p.driver == q.driver && p.controlPending
  {
    if script != [] {
      ServeAllAsleep(q, script[..|script| - 1]);
      ServeAsleep(ServeAll(q, script[..|script| - 1]), script[|script| - 1]);
    }
  }

  lemma {:induction false} ProcessAsleep(q: Queue, now: int, scripts: seq<seq<Request>>)
    requires q.controlPending && q.control.Sleeping?
    ensures var p := ProcessExpired(q, now, scripts); p.control == q.control && p.driver == q.driver && p.controlPending
    decreases |scripts|, |q.timers|
  {
    if q.timers != [] && q.timers[0].when <= now {
      var popped := q.(timers := q.timers[1..], ran := q.ran + [q.timers[0].id]);
      if scripts == [] {
        ProcessAsleep(popped, now, []);
      } else {
        ServeAllAsleep(popped, scripts[0]);
        ProcessAsleep(ServeAll(popped, scripts[0]), now, scripts[1..]);
      }
    }
  }

  /**
   And so does a callback's: whatever the rest of its script and the callbacks after it do, if its timer is still in the
   queue when the completion has been handled, it is late.
   */
  lemma CallbackOvertakingLate(q: Queue, when: int, more: seq<Request>, now: int, scripts: seq<seq<Request>>)
    requires Agrees(q) && when > 0 && Overtakes(q, when)
    ensures var p := ProcessExpired(ServeAll(Serve(q, Add(when)), more), now, scripts);
      !WakesBy(Reconcile(p), when)
  {
    var p := Serve(q, Add(when));
    AddInTime(q, when);
    ServeAsleep(q, Add(when));
    ServeAllAsleep(p, more);
    ProcessAsleep(ServeAll(p, more), now, scripts);
  }
}
