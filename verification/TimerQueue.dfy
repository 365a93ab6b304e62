/**
 The timer queue over a submission ring: one driver timeout for the earliest timer and one control operation, which is
 either an update of the driver or, where the kernel cannot update, a second timeout. Submissions succeed.
 */
module TimerQueue {

  import opened Sequences

  datatype Timer = Timer(when: int, id: nat)

  /** The driver operation as the kernel has it. A fired one waits to be reaped. */
  datatype Driver = Unarmed | Armed(at: int) | Fired(at: int)

  /** The control operation as the kernel has it. */
  datatype Control = Free | Updating(to: int) | Updated(ok: bool) | Sleeping(at: int) | Woken(at: int)

  /**
   `clash` records that an operation was submitted while it was in flight, `ran` the timers whose callbacks ran and
   `cancelled` those that a cancellation has found.
   */
  datatype Queue = Queue(
    timers: seq<Timer>, driverArmed: bool, controlPending: bool, controlIsFallback: bool, fallbackArmed: bool,
    updateSupported: bool, driverDeadline: int, requestedDeadline: int, next: nat,
    driver: Driver, control: Control, clash: bool, ran: seq<nat>, cancelled: set<nat>)

  /** What a caller, or the callback of a timer, asks of the queue. */
  datatype Request = Add(when: int) | Cancel(id: nat)

  /**
   Callers, completions with the time at which they are handled and what the callbacks then do, and the kernel. A
   timeout does not expire, and is not handled, before its deadline.
   */
  datatype Event =
    | Ask(request: Request)
    | DriverDone(now: int, scripts: seq<seq<Request>>) | ControlDone(now: int, scripts: seq<seq<Request>>)
    | Fire(now: int) | Apply(supported: bool) | Wake(now: int)

  function Empty(): Queue {
    Queue([], false, false, false, false, true, 0, 0, 0, Unarmed, Free, false, [], {})
  }

  predicate Before(a: Timer, b: Timer) {
    a.when < b.when || (a.when == b.when && a.id < b.id)
  }

  function Insert(ts: seq<Timer>, t: Timer): seq<Timer> {
    if ts == [] || Before(t, ts[0]) then [t] + ts else [ts[0]] + Insert(ts[1..], t)
  }

  function Remove(ts: seq<Timer>, id: nat): seq<Timer> {
    if ts == [] then [] else if ts[0].id == id then ts[1..] else [ts[0]] + Remove(ts[1..], id)
  }

  function Ids(ts: seq<Timer>): set<nat> {
    if ts == [] then {} else {ts[0].id} + Ids(ts[1..])
  }

  // ----- Operations -----

  function Arm(q: Queue, deadline: int): Queue {
    q.(driverArmed := true, driverDeadline := deadline, driver := Armed(deadline),
       clash := q.clash || q.driver != Unarmed)
  }

  function ArmFallback(q: Queue, deadline: int): Queue {
    q.(controlIsFallback := true, controlPending := true, fallbackArmed := true,
       control := Sleeping(deadline), clash := q.clash || q.control != Free)
  }

  function Update(q: Queue, deadline: int): Queue {
    q.(requestedDeadline := deadline, controlIsFallback := false, controlPending := true,
       control := Updating(deadline), clash := q.clash || q.control != Free)
  }

  function Reconcile(q: Queue): Queue {
    if q.controlPending || q.timers == [] then q
    else
      var earliest := q.timers[0].when;
      if !q.driverArmed then Arm(q, earliest)
      else if earliest >= q.driverDeadline then q
      else if q.updateSupported then Update(q, earliest)
      else if !q.fallbackArmed then ArmFallback(q, earliest)
      else q
  }

  /** An invalid time is refused, and so is the number of a timer that is not there. */
  function Serve(q: Queue, r: Request): Queue {
    match r
    case Add(when) =>
      if when <= 0 then q else Reconcile(q.(timers := Insert(q.timers, Timer(when, q.next)), next := q.next + 1))
    case Cancel(id) =>
      if id in Ids(q.timers) then Reconcile(q.(timers := Remove(q.timers, id), cancelled := q.cancelled + {id})) else q
  }

  function ServeAll(q: Queue, script: seq<Request>): Queue {
    if script == [] then q else Serve(ServeAll(q, script[..|script| - 1]), script[|script| - 1])
  }

  /** Timers that are due leave the queue one by one; each callback runs the next script, if there is one. */
  function ProcessExpired(q: Queue, now: int, scripts: seq<seq<Request>>): Queue
    decreases |scripts|, |q.timers|
  {
    if q.timers == [] || now < q.timers[0].when then q
    else
      var popped := q.(timers := q.timers[1..], ran := q.ran + [q.timers[0].id]);
      if scripts == [] then ProcessExpired(popped, now, [])
      else ProcessExpired(ServeAll(popped, scripts[0]), now, scripts[1..])
  }

  function DriverCompleted(q: Queue, now: int, scripts: seq<seq<Request>>): Queue {
    Reconcile(ProcessExpired(q.(driver := Unarmed, driverArmed := false, driverDeadline := 0), now, scripts))
  }

  function ControlCompleted(q: Queue, now: int, scripts: seq<seq<Request>>): Queue {
    var p := q.(control := Free, controlPending := false);
    if q.controlIsFallback then
      Reconcile(ProcessExpired(p.(controlIsFallback := false, fallbackArmed := false), now, scripts))
    else if q.control == Updated(true) then Reconcile(p.(driverDeadline := q.requestedDeadline))
    else Reconcile(p.(updateSupported := false))
  }

  /** An update reaches the driver only while it is armed, and only where the kernel knows updates. */
  function Applied(q: Queue, supported: bool): Queue
    requires q.control.Updating?
  {
    if q.driver.Armed? && supported then q.(driver := Armed(q.control.to), control := Updated(true))
    else q.(control := Updated(false))
  }

  function Step(q: Queue, e: Event): Queue {
    match e
    case Ask(r) => Serve(q, r)
    case DriverDone(now, scripts) =>
      if q.driver.Fired? && q.driver.at <= now then DriverCompleted(q, now, scripts) else q
    case ControlDone(now, scripts) =>
      if q.control.Updated? || (q.control.Woken? && q.control.at <= now) then ControlCompleted(q, now, scripts) else q
    case Fire(now) => if q.driver.Armed? && q.driver.at <= now then q.(driver := Fired(q.driver.at)) else q
    case Apply(supported) => if q.control.Updating? then Applied(q, supported) else q
    case Wake(now) => if q.control.Sleeping? && q.control.at <= now then q.(control := Woken(q.control.at)) else q
  }

  function Exec(run: seq<Event>): Queue {
    if run == [] then Empty() else Step(Exec(run[..|run| - 1]), run[|run| - 1])
  }

  // ----- What every event keeps -----

  /** The queue's flags and deadlines agree with what the kernel has. */
  ghost predicate Agrees(q: Queue) {
    && (q.driverArmed <==> q.driver != Unarmed) && (q.controlPending <==> q.control != Free)
    && (q.controlPending ==> (q.controlIsFallback <==> q.control.Sleeping? || q.control.Woken?))
    && (q.fallbackArmed <==> q.controlPending && q.controlIsFallback)
    && (q.control.Updating? ==> q.control.to == q.requestedDeadline)
    && (q.driver != Unarmed ==>
        q.driver.at == if q.control == Updated(true) then q.requestedDeadline else q.driverDeadline)
    && !q.clash
  }

  /** Somebody will look at the timers again, or there are none, or the driver is early enough. */
  ghost predicate Reconciled(q: Queue) {
    q.controlPending || q.timers == [] || (q.driverArmed && q.driverDeadline <= q.timers[0].when)
  }

  lemma ReconcileKeeps(q: Queue)
    requires Agrees(q)
    ensures Agrees(Reconcile(q)) && Reconciled(Reconcile(q))
  {
  }

  lemma ServeKeeps(q: Queue, r: Request)
    requires Agrees(q)
    ensures Agrees(Serve(q, r)) && (Reconciled(q) ==> Reconciled(Serve(q, r)))
  {
    match r
    case Add(when) => ReconcileKeeps(q.(timers := Insert(q.timers, Timer(when, q.next)), next := q.next + 1));
    case Cancel(id) => ReconcileKeeps(q.(timers := Remove(q.timers, id), cancelled := q.cancelled + {id}));
  }

  lemma {:induction false} ServeAllKeeps(q: Queue, script: seq<Request>)
    requires Agrees(q)
    ensures Agrees(ServeAll(q, script))
  {
    if script != [] {
      ServeAllKeeps(q, script[..|script| - 1]);
      ServeKeeps(ServeAll(q, script[..|script| - 1]), script[|script| - 1]);
    }
  }

  lemma {:induction false} ProcessKeeps(q: Queue, now: int, scripts: seq<seq<Request>>)
    requires Agrees(q)
    ensures Agrees(ProcessExpired(q, now, scripts))
    decreases |scripts|, |q.timers|
  {
    if q.timers != [] && q.timers[0].when <= now {
      var popped := q.(timers := q.timers[1..], ran := q.ran + [q.timers[0].id]);
      if scripts == [] {
        ProcessKeeps(popped, now, []);
      } else {
        ServeAllKeeps(popped, scripts[0]);
        ProcessKeeps(ServeAll(popped, scripts[0]), now, scripts[1..]);
      }
    }
  }

  lemma StepKeeps(q: Queue, e: Event)
    requires Agrees(q) && Reconciled(q)
    ensures Agrees(Step(q, e)) && Reconciled(Step(q, e))
  {
    match e
    case Ask(r) => ServeKeeps(q, r);
    case DriverDone(now, scripts) =>
      if q.driver.Fired? {
        var p := q.(driver := Unarmed, driverArmed := false, driverDeadline := 0);
        ProcessKeeps(p, now, scripts);
        ReconcileKeeps(ProcessExpired(p, now, scripts));
      }
    case ControlDone(now, scripts) => if q.control.Updated? || q.control.Woken? { ControlKeeps(q, now, scripts); }
    case _ =>
  }

  lemma ControlKeeps(q: Queue, now: int, scripts: seq<seq<Request>>)
    requires Agrees(q) && (q.control.Updated? || q.control.Woken?)
    ensures Agrees(ControlCompleted(q, now, scripts)) && Reconciled(ControlCompleted(q, now, scripts))
  {
    var p := q.(control := Free, controlPending := false);
    if q.controlIsFallback {
      p := p.(controlIsFallback := false, fallbackArmed := false);
      ProcessKeeps(p, now, scripts);
      ReconcileKeeps(ProcessExpired(p, now, scripts));
    } else if q.control == Updated(true) {
      ReconcileKeeps(p.(driverDeadline := q.requestedDeadline));
    } else {
      ReconcileKeeps(p.(updateSupported := false));
    }
  }

  lemma {:induction false} ExecInv(run: seq<Event>)
    ensures Agrees(Exec(run)) && Reconciled(Exec(run))
  {
    if run != [] {
      ExecInv(run[..|run| - 1]);
      StepKeeps(Exec(run[..|run| - 1]), run[|run| - 1]);
    }
  }

  // ----- The timers -----

  ghost predicate Sorted(ts: seq<Timer>) {
    forall i, j :: 0 <= i < j < |ts| ==> Before(ts[i], ts[j]) && ts[i].id != ts[j].id
  }

  lemma {:induction false} IdsAre(ts: seq<Timer>, t: Timer)
    requires t in ts
    ensures t.id in Ids(ts)
  {
    if t != ts[0] {
      IdsAre(ts[1..], t);
    }
  }

  lemma {:induction false} InsertHas(ts: seq<Timer>, t: Timer)
    ensures forall u :: u in Insert(ts, t) <==> u in ts || u == t
  {
    if ts != [] && !Before(t, ts[0]) {
      InsertHas(ts[1..], t);
      assert ts == [ts[0]] + ts[1..];
    }
  }

  lemma SortedCons(t: Timer, rest: seq<Timer>)
    requires Sorted(rest) && forall u :: u in rest ==> Before(t, u) && u.id != t.id
    ensures Sorted([t] + rest)
  {
  }

  lemma SortedTail(ts: seq<Timer>)
    requires Sorted(ts) && ts != []
    ensures Sorted(ts[1..]) && forall u :: u in ts[1..] ==> Before(ts[0], u) && u.id != ts[0].id
  {
  }

  lemma {:induction false} InsertSorted(ts: seq<Timer>, t: Timer)
    requires Sorted(ts) && forall u :: u in ts ==> u.id != t.id
    ensures Sorted(Insert(ts, t))
  {
    if ts == [] {
      SortedCons(t, ts);
    } else {
      SortedTail(ts);
      assert ts == [ts[0]] + ts[1..];
      if Before(t, ts[0]) {
        SortedCons(t, ts);
      } else {
        InsertSorted(ts[1..], t);
        InsertHas(ts[1..], t);
        SortedCons(ts[0], Insert(ts[1..], t));
      }
    }
  }

  lemma {:induction false} RemoveSorted(ts: seq<Timer>, id: nat)
    requires Sorted(ts)
    ensures Sorted(Remove(ts, id)) && forall u :: u in Remove(ts, id) <==> u in ts && u.id != id
  {
    if ts != [] {
      SortedTail(ts);
      assert ts == [ts[0]] + ts[1..];
      if ts[0].id != id {
        RemoveSorted(ts[1..], id);
        SortedCons(ts[0], Remove(ts[1..], id));
      }
    }
  }

  /** The timers are in order, each under its own number, and none of them has run; nothing runs twice. */
  ghost predicate Tidy(q: Queue) {
    && Sorted(q.timers) && NoneTwice(q.ran) && (forall t :: t in q.timers ==> t.id < q.next && t.id !in q.ran)
    && (forall id :: id in q.ran ==> id < q.next)
  }

  lemma ReconcileTimers(q: Queue)
    ensures Reconcile(q).timers == q.timers && Reconcile(q).ran == q.ran && Reconcile(q).next == q.next
  {
  }

  lemma ServeTidy(q: Queue, r: Request)
    requires Tidy(q)
    ensures Tidy(Serve(q, r)) && Serve(q, r).ran == q.ran
  {
    match r
    case Add(when) =>
      var t := Timer(when, q.next);
      InsertHas(q.timers, t);
      InsertSorted(q.timers, t);
      ReconcileTimers(q.(timers := Insert(q.timers, t), next := q.next + 1));
    case Cancel(id) =>
      RemoveSorted(q.timers, id);
      ReconcileTimers(q.(timers := Remove(q.timers, id), cancelled := q.cancelled + {id}));
  }

  lemma {:induction false} ServeAllTidy(q: Queue, script: seq<Request>)
    requires Tidy(q)
    ensures Tidy(ServeAll(q, script)) && ServeAll(q, script).ran == q.ran
  {
    if script != [] {
      ServeAllTidy(q, script[..|script| - 1]);
      ServeTidy(ServeAll(q, script[..|script| - 1]), script[|script| - 1]);
    }
  }

  lemma PopTidy(q: Queue)
    requires Tidy(q) && q.timers != []
    ensures Tidy(q.(timers := q.timers[1..], ran := q.ran + [q.timers[0].id]))
  {
    SortedTail(q.timers);
  }

  /** Handling a completion leaves no timer that is due, whatever the callbacks add or cancel, and runs none twice. */
  lemma {:induction false} ProcessTidy(q: Queue, now: int, scripts: seq<seq<Request>>)
    requires Tidy(q)
    ensures var p := ProcessExpired(q, now, scripts);
      Tidy(p) && q.ran <= p.ran && forall t :: t in p.timers ==> now < t.when
    decreases |scripts|, |q.timers|
  {
    if q.timers != [] && q.timers[0].when <= now {
      var popped := q.(timers := q.timers[1..], ran := q.ran + [q.timers[0].id]);
      PopTidy(q);
      if scripts == [] {
        ProcessTidy(popped, now, []);
      } else {
        ServeAllTidy(popped, scripts[0]);
        ProcessTidy(ServeAll(popped, scripts[0]), now, scripts[1..]);
      }
    } else if q.timers != [] {
      SortedTail(q.timers);
    }
  }

  lemma ProcessedTidy(q: Queue, now: int, scripts: seq<seq<Request>>)
    requires Tidy(q)
    ensures Tidy(Reconcile(ProcessExpired(q, now, scripts)))
  {
    ProcessTidy(q, now, scripts);
    ReconcileTimers(ProcessExpired(q, now, scripts));
  }

  lemma ControlTidy(q: Queue, now: int, scripts: seq<seq<Request>>)
    requires Tidy(q)
    ensures Tidy(ControlCompleted(q, now, scripts))
  {
    var p := q.(control := Free, controlPending := false);
    if q.controlIsFallback {
      ProcessedTidy(p.(controlIsFallback := false, fallbackArmed := false), now, scripts);
    } else if q.control == Updated(true) {
      ReconcileTimers(p.(driverDeadline := q.requestedDeadline));
    } else {
      ReconcileTimers(p.(updateSupported := false));
    }
  }

  lemma SameTimersTidy(q: Queue, p: Queue)
    requires Tidy(q) && p.timers == q.timers && p.ran == q.ran && p.next == q.next
    ensures Tidy(p)
  {
  }

  lemma DriverTidy(q: Queue, now: int, scripts: seq<seq<Request>>)
    requires Tidy(q)
    ensures Tidy(DriverCompleted(q, now, scripts))
  {
    var p := q.(driver := Unarmed, driverArmed := false, driverDeadline := 0);
    SameTimersTidy(q, p);
    ProcessedTidy(p, now, scripts);
  }

  lemma KernelTimers(q: Queue, e: Event)
    requires e.Fire? || e.Wake? || e.Apply?
    ensures Step(q, e).timers == q.timers && Step(q, e).ran == q.ran && Step(q, e).next == q.next
  {
  }

  lemma StepTidy(q: Queue, e: Event)
    requires Tidy(q)
    ensures Tidy(Step(q, e))
  {
    match e
    case Ask(r) => ServeTidy(q, r);
    case DriverDone(now, scripts) => DriverTidy(q, now, scripts);
    case ControlDone(now, scripts) => ControlTidy(q, now, scripts);
    case _ =>
      KernelTimers(q, e);
      SameTimersTidy(q, Step(q, e));
  }

  lemma {:induction false} ExecTidy(run: seq<Event>)
    ensures Tidy(Exec(run))
  {
    if run != [] {
      ExecTidy(run[..|run| - 1]);
      StepTidy(Exec(run[..|run| - 1]), run[|run| - 1]);
    }
  }

  // ----- The theorems -----

  /** In every run no operation is submitted while it is in flight, and the flags say truly what is. */
  lemma NeverResubmitted(run: seq<Event>)
    ensures var q := Exec(run);
      !q.clash && (q.driverArmed <==> q.driver != Unarmed) && (q.controlPending <==> q.control != Free)
  {
    ExecInv(run);
  }

  /**
   After every event a control operation is pending, or there are no timers, or the driver is due by the earliest
   one.
   */
  lemma AlwaysReconciled(run: seq<Event>, t: Timer)
    requires t in Exec(run).timers
    ensures var q := Exec(run); q.controlPending || (q.driverArmed && q.driverDeadline <= t.when)
  {
    ExecInv(run);
    ExecTidy(run);
    var q := Exec(run);
    SortedTail(q.timers);
  }

  /** The kernel wakes the loop no later than at time `due`, or has something for it already. */
  ghost predicate WakesBy(q: Queue, due: int) {
    || (q.driver.Armed? && q.driver.at <= due) || q.driver.Fired?
    || q.control.Updating? || q.control.Updated? || q.control.Woken? || (q.control.Sleeping? && q.control.at <= due)
  }

  /** The kernel wakes the loop in time for every timer unless the compatibility timeout sleeps past it. */
  lemma WokenUnlessAsleep(run: seq<Event>, t: Timer)
    requires t in Exec(run).timers
    ensures var q := Exec(run); WakesBy(q, t.when) || (q.control.Sleeping? && t.when < q.control.at)
  {
    ExecInv(run);
    AlwaysReconciled(run, t);
  }

  // ----- When a timer is late -----

  /** A timer that is due at `when` would be overtaken by the compatibility timeout that is in flight. */
  ghost predicate Overtakes(q: Queue, when: int) {
    q.control.Sleeping? && when < q.control.at && !(q.driverArmed && (q.driver.Fired? || q.driverDeadline <= when))
  }

  lemma InsertFirst(ts: seq<Timer>, t: Timer)
    ensures Insert(ts, t) != [] && Insert(ts, t)[0].when <= t.when
  {
  }

  /**
   Adding a timer, by a caller or by a callback: the kernel will wake the loop too late for it exactly if the
   compatibility timeout is in flight with a later deadline and the driver is neither due in time nor waiting to be
   reaped.
   */
  lemma AddInTime(q: Queue, when: int)
    requires Agrees(q) && when > 0
    ensures WakesBy(Serve(q, Add(when)), when) <==> !Overtakes(q, when)
  {
    var p := q.(timers := Insert(q.timers, Timer(when, q.next)), next := q.next + 1);
    InsertFirst(q.timers, Timer(when, q.next));
    ReconcileKeeps(p);
  }

  /** In every reachable state that decides about the timer that a caller adds. */
  lemma AddedInTime(run: seq<Event>, when: int)
    requires when > 0
    ensures WakesBy(Serve(Exec(run), Add(when)), when) <==> !Overtakes(Exec(run), when)
  {
    ExecInv(run);
    AddInTime(Exec(run), when);
  }

  /** Updates are in flight only while the kernel is thought to know them, and the compatibility timeout only after. */
  ghost predicate Mode(q: Queue) {
    match q.control
    case Updating(_) => q.updateSupported
    case Updated(_) => q.updateSupported
    case Sleeping(_) => !q.updateSupported
    case Woken(_) => !q.updateSupported
    case Free => true
  }

  lemma ServeMode(q: Queue, r: Request)
    requires Mode(q)
    ensures Mode(Serve(q, r)) && Serve(q, r).updateSupported == q.updateSupported
  {
  }

  lemma {:induction false} ServeAllMode(q: Queue, script: seq<Request>)
    requires Mode(q)
    ensures Mode(ServeAll(q, script)) && ServeAll(q, script).updateSupported == q.updateSupported
  {
    if script != [] {
      ServeAllMode(q, script[..|script| - 1]);
      ServeMode(ServeAll(q, script[..|script| - 1]), script[|script| - 1]);
    }
  }

  lemma {:induction false} ProcessMode(q: Queue, now: int, scripts: seq<seq<Request>>)
    requires Mode(q)
    ensures Mode(ProcessExpired(q, now, scripts))
    decreases |scripts|, |q.timers|
  {
    if q.timers != [] && q.timers[0].when <= now {
      var popped := q.(timers := q.timers[1..], ran := q.ran + [q.timers[0].id]);
      if scripts == [] {
        ProcessMode(popped, now, []);
      } else {
        ServeAllMode(popped, scripts[0]);
        ProcessMode(ServeAll(popped, scripts[0]), now, scripts[1..]);
      }
    }
  }

  lemma ReconcileMode(q: Queue)
    requires Mode(q)
    ensures Mode(Reconcile(q))
  {
  }

  lemma StepMode(q: Queue, e: Event)
    requires Mode(q)
    ensures Mode(Step(q, e))
  {
    match e
    case Ask(r) => ServeMode(q, r);
    case DriverDone(now, scripts) =>
      var p := q.(driver := Unarmed, driverArmed := false, driverDeadline := 0);
      ProcessMode(p, now, scripts);
      ReconcileMode(ProcessExpired(p, now, scripts));
    case ControlDone(now, scripts) => ControlMode(q, now, scripts);
    case _ =>
  }

  lemma ControlMode(q: Queue, now: int, scripts: seq<seq<Request>>)
    requires Mode(q)
    ensures Mode(ControlCompleted(q, now, scripts))
  {
    var p := q.(control := Free, controlPending := false, controlIsFallback := false, fallbackArmed := false);
    ProcessMode(p, now, scripts);
    ReconcileMode(ProcessExpired(p, now, scripts));
  }

  lemma {:induction false} ExecMode(run: seq<Event>)
    ensures Mode(Exec(run))
  {
    if run != [] {
      ExecMode(run[..|run| - 1]);
      StepMode(Exec(run[..|run| - 1]), run[|run| - 1]);
    }
  }

  /** As long as no update has been refused, every timer is woken in time. */
  lemma SupportedInTime(run: seq<Event>, t: Timer)
    requires Exec(run).updateSupported && t in Exec(run).timers
    ensures WakesBy(Exec(run), t.when)
  {
    ExecMode(run);
    WokenUnlessAsleep(run, t);
  }

  // ----- A refused update makes some timer late sooner or later -----

  /** The time after an event that comes at `clock` or later. */
  function TimeOf(e: Event, clock: int): int {
    match e
    case DriverDone(now, _) => now
    case ControlDone(now, _) => now
    case Fire(now) => now
    case Wake(now) => now
    case _ => clock
  }

  function Clock(run: seq<Event>): int {
    if run == [] then 0 else TimeOf(run[|run| - 1], Clock(run[..|run| - 1]))
  }

  /** Time does not go back in the run. */
  predicate Forward(run: seq<Event>) {
    run == [] ||
    (Forward(run[..|run| - 1]) && Clock(run[..|run| - 1]) <= TimeOf(run[|run| - 1], Clock(run[..|run| - 1])))
  }

  /** `run'` goes on from `run`, and time goes on in it. */
  ghost predicate Continues(run: seq<Event>, run': seq<Event>) {
    run <= run' && (Forward(run) ==> Forward(run'))
  }

  lemma Then(run: seq<Event>, e: Event) returns (run': seq<Event>)
    requires Clock(run) <= TimeOf(e, Clock(run))
    ensures Continues(run, run') && Exec(run') == Step(Exec(run), e)
  {
    run' := run + [e];
    assert run'[..|run'| - 1] == run;
  }

  function Max(a: int, b: int): int {
    if a < b then b else a
  }

  function Latest(ts: seq<Timer>): int {
    if ts == [] then 0 else if Latest(ts[1..]) < ts[0].when then ts[0].when else Latest(ts[1..])
  }

  lemma {:induction false} AllExpire(q: Queue, now: int)
    requires Latest(q.timers) <= now
    ensures ProcessExpired(q, now, []).timers == []
    ensures ProcessExpired(q, now, []) == q.(timers := [], ran := ProcessExpired(q, now, []).ran)
    decreases |q.timers|
  {
    if q.timers != [] {
      AllExpire(q.(timers := q.timers[1..], ran := q.ran + [q.timers[0].id]), now);
    }
  }

  /** The control operation completes, late enough to take all timers with it. */
  lemma ControlSettles(run: seq<Event>) returns (run': seq<Event>)
    requires !Exec(run).updateSupported
    ensures Continues(run, run') && !Exec(run').updateSupported && Exec(run').control == Free
  {
    run' := run;
    ExecMode(run);
    ExecInv(run);
    if Exec(run').control.Sleeping? {
      run' := Then(run', Wake(Max(Clock(run'), Exec(run').control.at)));
    }
    if Exec(run').control.Woken? {
      var q := Exec(run');
      var now := Max(Clock(run'), Max(Latest(q.timers), q.control.at));
      ExecInv(run');
      AllExpire(q.(control := Free, controlPending := false, controlIsFallback := false, fallbackArmed := false), now);
      run' := Then(run', ControlDone(now, []));
    }
  }

  /** Then the driver fires and takes the rest. */
  lemma DriverSettles(run: seq<Event>) returns (run': seq<Event>)
    requires !Exec(run).updateSupported && Exec(run).control == Free
    ensures Continues(run, run')
    ensures var q := Exec(run'); !q.updateSupported && q.control == Free && q.driver == Unarmed && q.timers == []
  {
    run' := run;
    ExecInv(run);
    if Exec(run').driver.Armed? {
      run' := Then(run', Fire(Max(Clock(run'), Exec(run').driver.at)));
    }
    if Exec(run').driver.Fired? {
      var q := Exec(run');
      var now := Max(Clock(run'), Max(Latest(q.timers), q.driver.at));
      ExecInv(run');
      AllExpire(q.(driver := Unarmed, driverArmed := false, driverDeadline := 0), now);
      run' := Then(run', DriverDone(now, []));
    }
  }

  function Ahead(q: Queue, when: int): Queue {
    Reconcile(q.(timers := [Timer(when, q.next)] + q.timers, next := q.next + 1))
  }

  lemma AddStep(run: seq<Event>, when: int) returns (run': seq<Event>)
    requires when > 0 && (Exec(run).timers == [] || when < Exec(run).timers[0].when)
    ensures Continues(run, run') && Exec(run') == Ahead(Exec(run), when)
  {
    run' := Then(run, Ask(Add(when)));
  }

  /** The driver takes the first timer, the fallback the next, and nothing is left for the third. */
  lemma ThreeAhead(q: Queue, base: nat)
    requires !q.updateSupported && q.control == Free && q.driver == Unarmed && q.timers == [] && Agrees(q)
    ensures var q2 := Ahead(Ahead(q, base + 3), base + 2);
      var q3 := Ahead(q2, base + 1);
      && Ahead(q, base + 3).timers[0].when == base + 3 && q2.timers[0].when == base + 2
      && q3.timers[0] == Timer(base + 1, q2.next) && !WakesBy(q3, base + 1)
  {
    var q1 := Ahead(q, base + 3);
    assert q1.driver == Armed(base + 3) && q1.control == Free && !q1.controlPending && !q1.fallbackArmed;
    var q2 := Ahead(q1, base + 2);
    assert q2.control == Sleeping(base + 2) && q2.driver == Armed(base + 3) && q2.controlPending;
  }

  /**
   Three timers, each due before the one added before it: the driver takes the first, the control operation the
   next.
   */
  lemma ThreeTimers(run: seq<Event>, base: nat) returns (run': seq<Event>, t: Timer)
    requires var q := Exec(run); !q.updateSupported && q.control == Free && q.driver == Unarmed && q.timers == []
    ensures Continues(run, run') && t in Exec(run').timers && base < t.when && !WakesBy(Exec(run'), t.when)
  {
    ExecInv(run);
    ThreeAhead(Exec(run), base);
    run' := AddStep(run, base + 3);
    run' := AddStep(run', base + 2);
    run' := AddStep(run', base + 1);
    t := Exec(run').timers[0];
  }

  /**
   From every state in which an update has been refused, the queue can come to serve a timer too late, at any time.
   */
  lemma UnsupportedLate(run: seq<Event>, base: nat) returns (run': seq<Event>, t: Timer)
    requires !Exec(run).updateSupported
    ensures Continues(run, run') && t in Exec(run').timers && base < t.when && !WakesBy(Exec(run'), t.when)
  {
    var settled := ControlSettles(run);
    settled := DriverSettles(settled);
    run', t := ThreeTimers(settled, base);
  }

  /** Such a state is reached: a kernel without updates refuses to bring a timeout at 100 forward to 50. */
  lemma UpdateRefused() returns (run: seq<Event>)
    ensures !Exec(run).updateSupported && Forward(run)
  {
    run := Updates();
    run := Then(run, Apply(false));
    assert Exec(run).control == Updated(false) && !Exec(run).controlIsFallback;
    run := Then(run, ControlDone(Clock(run), []));
  }

  lemma Updates() returns (run: seq<Event>)
    ensures Forward(run) && Exec(run).control.Updating? && !Exec(run).controlIsFallback
  {
    run := Then([], Ask(Add(100)));
    assert Exec(run).timers == [Timer(100, 0)] && Exec(run).timers[1..] == [];
    run := Then(run, Ask(Add(50)));
  }

  lemma LateTimer()
    ensures exists run, t :: Forward(run) && t in Exec(run).timers && !WakesBy(Exec(run), t.when)
  {
    var run := UpdateRefused();
    var late, t := UnsupportedLate(run, 0);
  }

  // ----- The queue object -----

  class LUringTimerQueue {
    var timers: seq<Timer>
    var driverArmed: bool
    var controlPending: bool
    var controlIsFallback: bool
    var fallbackArmed: bool
    var updateSupported: bool
    var driverDeadline: int
    var requestedDeadline: int
    var next: nat
    ghost var driver: Driver
    ghost var control: Control
    ghost var clash: bool
    ghost var ran: seq<nat>
    ghost var cancelled: set<nat>

    constructor ()
      ensures View() == Empty()
    {
      timers, next := [], 0;
      driverArmed, controlPending, controlIsFallback, fallbackArmed := false, false, false, false;
      updateSupported := true;
      driverDeadline, requestedDeadline := 0, 0;
      driver, control, clash, ran, cancelled := Unarmed, Free, false, [], {};
    }

    ghost function View(): Queue
      reads this
    {
      Queue(timers, driverArmed, controlPending, controlIsFallback, fallbackArmed, updateSupported,
            driverDeadline, requestedDeadline, next, driver, control, clash, ran, cancelled)
    }

    method SubmitDriver(deadline: int)
      modifies `driver, `clash
      ensures driver == Armed(deadline) && clash == (old(clash) || old(driver) != Unarmed)
    {
      clash := clash || driver != Unarmed;
      driver := Armed(deadline);
    }

    method SubmitControl(op: Control)
      modifies `control, `clash
      ensures control == op && clash == (old(clash) || old(control) != Free)
    {
      clash := clash || control != Free;
      control := op;
    }

    method ArmDriver(deadline: int)
      modifies this
      ensures View() == Arm(old(View()), deadline)
    {
      SubmitDriver(deadline);
      driverArmed, driverDeadline := true, deadline;
    }

    method ArmCompatibility(deadline: int)
      modifies this
      ensures View() == ArmFallback(old(View()), deadline)
    {
      controlIsFallback := true;
      SubmitControl(Sleeping(deadline));
      controlPending, fallbackArmed := true, true;
    }

    method UpdateDriver(deadline: int)
      modifies this
      ensures View() == Update(old(View()), deadline)
    {
      requestedDeadline, controlIsFallback := deadline, false;
      SubmitControl(Updating(deadline));
      controlPending := true;
    }

    method ReconcileAll()
      modifies this
      ensures View() == Reconcile(old(View()))
    {
      if controlPending { return; }
      if !driverArmed {
        if timers != [] {
          ArmDriver(timers[0].when);
        }
        return;
      }
      if timers != [] && timers[0].when < driverDeadline {
        if updateSupported {
          UpdateDriver(timers[0].when);
        } else if !fallbackArmed {
          ArmCompatibility(timers[0].when);
        }
      }
    }

    method AddTimer(when: int) returns (id: int)
      modifies this
      ensures View() == Serve(old(View()), Add(when))
      ensures id == if when <= 0 then -1 else old(next)
    {
      if when <= 0 { return -1; }
      id := next;
      timers := Insert(timers, Timer(when, next));
      next := next + 1;
      ReconcileAll();
    }

    method CancelTimer(id: nat) returns (found: bool)
      modifies this
      ensures View() == Serve(old(View()), Cancel(id)) && (found <==> id in Ids(old(timers)))
    {
      if id !in Ids(timers) { return false; }
      timers := Remove(timers, id);
      cancelled := cancelled + {id};
      ReconcileAll();
      return true;
    }

    /** A callback of a timer, which may use the queue. */
    method RunCallback(script: seq<Request>)
      modifies this
      ensures View() == ServeAll(old(View()), script)
    {
      for i := 0 to |script|
        invariant View() == ServeAll(old(View()), script[..i])
      {
        assert script[..i + 1][..i] == script[..i];
        match script[i] {
          case Add(when) => var _ := AddTimer(when);
          case Cancel(id) => var _ := CancelTimer(id);
        }
      }
      assert script[..|script|] == script;
    }

    method RunExpired(now: int, scripts: seq<seq<Request>>)
      modifies this
      ensures View() == ProcessExpired(old(View()), now, scripts)
    {
      var left := scripts;
      while timers != [] && timers[0].when <= now
        invariant ProcessExpired(View(), now, left) == ProcessExpired(old(View()), now, scripts)
        decreases |left|, |timers|
      {
        var due := timers[0];
        timers := timers[1..];
        ran := ran + [due.id];
        if left != [] {
          RunCallback(left[0]);
          left := left[1..];
        }
      }
    }

    method HandleDriverComplete(now: int, scripts: seq<seq<Request>>)
      requires driver.Fired?
      modifies this
      ensures View() == DriverCompleted(old(View()), now, scripts)
    {
      driver := Unarmed;
      driverArmed, driverDeadline := false, 0;
      RunExpired(now, scripts);
      ReconcileAll();
    }

    method HandleControlComplete(ok: bool, now: int, scripts: seq<seq<Request>>)
      requires control == Updated(ok) || control.Woken?
      modifies this
      ensures old(Agrees(View())) ==> View() == ControlCompleted(old(View()), now, scripts)
    {
      control := Free;
      controlPending := false;
      if controlIsFallback {
        FinishFallback(now, scripts);
      } else {
        FinishUpdate(ok);
      }
    }

    method FinishFallback(now: int, scripts: seq<seq<Request>>)
      modifies this
      ensures View() ==
        Reconcile(ProcessExpired(old(View()).(controlIsFallback := false, fallbackArmed := false), now, scripts))
    {
      controlIsFallback, fallbackArmed := false, false;
      RunExpired(now, scripts);
      ReconcileAll();
    }

    method FinishUpdate(ok: bool)
      modifies this
      ensures View() ==
        Reconcile(if ok then old(View()).(driverDeadline := old(requestedDeadline))
                  else old(View()).(updateSupported := false))
    {
      if ok {
        driverDeadline := requestedDeadline;
      } else {
        updateSupported := false;
      }
      ReconcileAll();
    }
  }
}
