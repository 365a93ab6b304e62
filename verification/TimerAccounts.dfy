/**
 What becomes of every timer: it waits, has run or has been cancelled, and only one of these. A cancelled timer never
 runs, and none runs before its time.
 */
module TimerAccounts {

  import opened TimerQueue

  ghost predicate Queued(q: Queue, id: nat) {
    exists t :: t in q.timers && t.id == id
  }

  lemma {:induction false} IdsIff(ts: seq<Timer>, id: nat)
    ensures id in Ids(ts) <==> exists t :: t in ts && t.id == id
  {
    if ts != [] {
      IdsIff(ts[1..], id);
      assert ts == [ts[0]] + ts[1..];
      if id in Ids(ts[1..]) {
        var t :| t in ts[1..] && t.id == id;
        assert t in ts;
      }
      assert ts[0] in ts;
    }
  }

  /** Every number that has been given out is accounted for once. */
  ghost predicate Balanced(q: Queue) {
    && Tidy(q)
    && (forall id: nat :: id < q.next ==> Queued(q, id) || id in q.ran || id in q.cancelled)
    && (forall id: nat :: id in q.cancelled ==> id < q.next && !Queued(q, id) && id !in q.ran)
  }

  ghost predicate SameTimers(q: Queue, p: Queue) {
    p.timers == q.timers && p.ran == q.ran && p.next == q.next && p.cancelled == q.cancelled
  }

  lemma ReconcileAccounts(q: Queue)
    ensures SameTimers(q, Reconcile(q))
  {
  }

  lemma SameBalanced(q: Queue, p: Queue)
    requires Balanced(q) && SameTimers(q, p)
    ensures Balanced(p)
  {
    forall id: nat ensures Queued(p, id) <==> Queued(q, id) {
    }
  }

  lemma AddBalanced(q: Queue, when: int)
    requires Balanced(q) && when > 0
    ensures Balanced(Serve(q, Add(when)))
    ensures Timer(when, q.next) in Serve(q, Add(when)).timers && Serve(q, Add(when)).next == q.next + 1
  {
    var t, p := Timer(when, q.next), Serve(q, Add(when));
    ServeTidy(q, Add(when));
    InsertHas(q.timers, t);
    ReconcileAccounts(q.(timers := Insert(q.timers, t), next := q.next + 1));
    assert forall u :: u in q.timers ==> u in p.timers;
    forall id: nat | id < p.next ensures Queued(p, id) || id in p.ran || id in p.cancelled {
      if id < q.next && Queued(q, id) {
        var u :| u in q.timers && u.id == id;
        assert u in p.timers;
      }
    }
  }

  /** A cancellation that finds its timer takes it out of the queue, and no other. */
  lemma CancelBalanced(q: Queue, id: nat)
    requires Balanced(q) && Queued(q, id)
    ensures var p := Serve(q, Cancel(id));
      && Balanced(p) && !Queued(p, id) && id in p.cancelled
      && forall t :: t in q.timers && t.id != id ==> t in p.timers
  {
    var p := Serve(q, Cancel(id));
    IdsIff(q.timers, id);
    ServeTidy(q, Cancel(id));
    RemoveSorted(q.timers, id);
    ReconcileAccounts(q.(timers := Remove(q.timers, id), cancelled := q.cancelled + {id}));
    forall other: nat | other < p.next ensures Queued(p, other) || other in p.ran || other in p.cancelled {
      if other != id && Queued(q, other) {
        var t :| t in q.timers && t.id == other;
        assert t in p.timers;
      }
    }
  }

  lemma ServeBalanced(q: Queue, r: Request)
    requires Balanced(q)
    ensures Balanced(Serve(q, r))
  {
    match r
    case Add(when) => if when > 0 { AddBalanced(q, when); }
    case Cancel(id) =>
      IdsIff(q.timers, id);
      if Queued(q, id) {
        CancelBalanced(q, id);
      }
  }

  lemma {:induction false} ServeAllBalanced(q: Queue, script: seq<Request>)
    requires Balanced(q)
    ensures Balanced(ServeAll(q, script))
  {
    if script != [] {
      ServeAllBalanced(q, script[..|script| - 1]);
      ServeBalanced(ServeAll(q, script[..|script| - 1]), script[|script| - 1]);
    }
  }

  function Popped(q: Queue): Queue
    requires q.timers != []
  {
    q.(timers := q.timers[1..], ran := q.ran + [q.timers[0].id])
  }

  lemma PopBalanced(q: Queue)
    requires Balanced(q) && q.timers != []
    ensures Balanced(Popped(q))
  {
    var p, first := Popped(q), q.timers[0];
    PopTidy(q);
    assert q.timers == [first] + p.timers;
    forall id: nat | id < p.next ensures Queued(p, id) || id in p.ran || id in p.cancelled {
      if id != first.id && Queued(q, id) {
        var t :| t in q.timers && t.id == id;
        assert t in p.timers;
      }
    }
    assert Queued(q, first.id);
  }

  lemma {:induction false} ProcessBalanced(q: Queue, now: int, scripts: seq<seq<Request>>)
    requires Balanced(q)
    ensures Balanced(ProcessExpired(q, now, scripts))
    decreases |scripts|, |q.timers|
  {
    if q.timers != [] && q.timers[0].when <= now {
      PopBalanced(q);
      if scripts == [] {
        ProcessBalanced(Popped(q), now, []);
      } else {
        ServeAllBalanced(Popped(q), scripts[0]);
        ProcessBalanced(ServeAll(Popped(q), scripts[0]), now, scripts[1..]);
      }
    }
  }

  lemma ProcessedBalanced(q: Queue, now: int, scripts: seq<seq<Request>>)
    requires Balanced(q)
    ensures Balanced(Reconcile(ProcessExpired(q, now, scripts)))
  {
    ProcessBalanced(q, now, scripts);
    ReconcileAccounts(ProcessExpired(q, now, scripts));
    SameBalanced(ProcessExpired(q, now, scripts), Reconcile(ProcessExpired(q, now, scripts)));
  }

  /** The state in which a completion starts to handle timers. */
  function DriverReaped(q: Queue): Queue {
    q.(driver := Unarmed, driverArmed := false, driverDeadline := 0)
  }

  function FallbackReaped(q: Queue): Queue {
    q.(control := Free, controlPending := false, controlIsFallback := false, fallbackArmed := false)
  }

  /** The event handles, at its time, the timers there are. */
  ghost predicate Handles(q: Queue, e: Event, p: Queue) {
    && (e.DriverDone? || e.ControlDone?) && SameTimers(q, p)
    && Step(q, e) == Reconcile(ProcessExpired(p, e.now, e.scripts))
  }

  lemma ControlCases(q: Queue, now: int, scripts: seq<seq<Request>>)
    ensures var p := ControlCompleted(q, now, scripts);
      if q.controlIsFallback then p == Reconcile(ProcessExpired(FallbackReaped(q), now, scripts)) else SameTimers(q, p)
  {
    ReconcileAccounts(q.(control := Free, controlPending := false, driverDeadline := q.requestedDeadline));
    ReconcileAccounts(q.(control := Free, controlPending := false, updateSupported := false));
  }

  /** The state from which an event handles timers, if it does. */
  lemma StepCases(q: Queue, e: Event) returns (p: Queue, handles: bool)
    ensures handles ==> Handles(q, e, p)
    ensures !handles && !e.Ask? ==> SameTimers(q, Step(q, e))
  {
    p, handles := q, false;
    match e
    case DriverDone(now, scripts) =>
      if q.driver.Fired? && q.driver.at <= now {
        p, handles := DriverReaped(q), true;
      }
    case ControlDone(now, scripts) =>
      ControlCases(q, now, scripts);
      if (q.control.Updated? || (q.control.Woken? && q.control.at <= now)) && q.controlIsFallback {
        p, handles := FallbackReaped(q), true;
      }
    case _ =>
  }

  lemma StepBalanced(q: Queue, e: Event)
    requires Balanced(q)
    ensures Balanced(Step(q, e))
  {
    var p, handles := StepCases(q, e);
    if e.Ask? {
      ServeBalanced(q, e.request);
    } else if handles {
      SameBalanced(q, p);
      ProcessedBalanced(p, e.now, e.scripts);
    } else {
      SameBalanced(q, Step(q, e));
    }
  }

  lemma {:induction false} ExecBalanced(run: seq<Event>)
    ensures Balanced(Exec(run))
  {
    if run != [] {
      ExecBalanced(run[..|run| - 1]);
      StepBalanced(Exec(run[..|run| - 1]), run[|run| - 1]);
    }
  }

  /**
   In every run every number given out is that of a timer that waits, has run or was cancelled, and of one kind
   only.
   */
  lemma AllAccounted(run: seq<Event>, id: nat)
    requires id < Exec(run).next
    ensures var q := Exec(run);
      && (Queued(q, id) || id in q.ran || id in q.cancelled)
      && !(Queued(q, id) && id in q.ran) && !(Queued(q, id) && id in q.cancelled) && !(id in q.ran && id in q.cancelled)
  {
    ExecBalanced(run);
  }

  // ----- A timer keeps its time -----

  /** Whatever waits under this number is due at an admitted time. */
  ghost predicate Tracked(q: Queue, id: nat, ok: int -> bool) {
    id < q.next && forall t :: t in q.timers && t.id == id ==> ok(t.when)
  }

  lemma ServeTracks(q: Queue, r: Request, id: nat, ok: int -> bool)
    requires Balanced(q) && Tracked(q, id, ok)
    ensures Tracked(Serve(q, r), id, ok) && Serve(q, r).ran == q.ran
  {
    ServeTidy(q, r);
    match r
    case Add(when) =>
      InsertHas(q.timers, Timer(when, q.next));
      ReconcileAccounts(q.(timers := Insert(q.timers, Timer(when, q.next)), next := q.next + 1));
    case Cancel(other) =>
      RemoveSorted(q.timers, other);
      ReconcileAccounts(q.(timers := Remove(q.timers, other), cancelled := q.cancelled + {other}));
  }

  lemma {:induction false} ServeAllTracks(q: Queue, script: seq<Request>, id: nat, ok: int -> bool)
    requires Balanced(q) && Tracked(q, id, ok)
    ensures Tracked(ServeAll(q, script), id, ok) && ServeAll(q, script).ran == q.ran
  {
    if script != [] {
      ServeAllTracks(q, script[..|script| - 1], id, ok);
      ServeAllBalanced(q, script[..|script| - 1]);
      ServeTracks(ServeAll(q, script[..|script| - 1]), script[|script| - 1], id, ok);
    }
  }

  lemma {:induction false} ProcessTracks(q: Queue, now: int, scripts: seq<seq<Request>>, id: nat, ok: int -> bool)
    requires Balanced(q) && Tracked(q, id, ok)
    ensures var p := ProcessExpired(q, now, scripts);
      Tracked(p, id, ok) && (id !in q.ran && (forall w :: ok(w) ==> now < w) ==> id !in p.ran)
    decreases |scripts|, |q.timers|
  {
    if q.timers != [] && q.timers[0].when <= now {
      var popped := Popped(q);
      PopBalanced(q);
      assert q.timers[0] in q.timers;
      if scripts == [] {
        ProcessTracks(popped, now, [], id, ok);
      } else {
        ServeAllTracks(popped, scripts[0], id, ok);
        ServeAllBalanced(popped, scripts[0]);
        ProcessTracks(ServeAll(popped, scripts[0]), now, scripts[1..], id, ok);
      }
    }
  }

  lemma StepTracks(q: Queue, e: Event, id: nat, ok: int -> bool)
    requires Balanced(q) && Tracked(q, id, ok)
    requires (e.DriverDone? || e.ControlDone?) ==> forall w :: ok(w) ==> e.now < w
    ensures Tracked(Step(q, e), id, ok) && (id !in q.ran ==> id !in Step(q, e).ran)
  {
    var p, handles := StepCases(q, e);
    if e.Ask? {
      ServeTracks(q, e.request, id, ok);
    } else if handles {
      SameBalanced(q, p);
      ProcessTracks(p, e.now, e.scripts, id, ok);
      ReconcileAccounts(ProcessExpired(p, e.now, e.scripts));
    }
  }

  lemma ExecMore(run: seq<Event>, e: Event)
    ensures Exec(run + [e]) == Step(Exec(run), e)
  {
    assert (run + [e])[..|run|] == run;
  }

  /** No timer runs before its time, whatever is handled and whatever callbacks do. */
  lemma NotBeforeTime(run: seq<Event>, e: Event, t: Timer)
    requires t in Exec(run).timers && ((e.DriverDone? || e.ControlDone?) ==> e.now < t.when)
    ensures t.id !in Exec(run + [e]).ran
  {
    ExecBalanced(run);
    ExecMore(run, e);
    var q := Exec(run);
    assert forall u :: u in q.timers && u.id == t.id ==> u.when == t.when;
    StepTracks(q, e, t.id, w => w == t.when);
  }

  /**
   A completion that is handled at `now` runs every timer that is due by then, unless a callback cancels it before.
   */
  lemma DueRuns(run: seq<Event>, e: Event, t: Timer)
    requires t in Exec(run).timers && (e.DriverDone? || e.ControlDone?) && t.when <= e.now
    requires var q := Exec(run);
      if e.DriverDone? then q.driver.Fired? && q.driver.at <= e.now else q.control.Woken? && q.control.at <= e.now
    ensures var q := Exec(run + [e]); t.id in q.ran || t.id in q.cancelled
  {
    ExecBalanced(run);
    ExecBalanced(run + [e]);
    ExecMore(run, e);
    ExecInv(run);
    var q := Exec(run);
    var p := if e.DriverDone? then DriverReaped(q) else FallbackReaped(q);
    SameBalanced(q, p);
    assert forall u :: u in q.timers && u.id == t.id ==> u.when == t.when;
    ProcessTracks(p, e.now, e.scripts, t.id, w => w == t.when);
    ProcessTidy(p, e.now, e.scripts);
    ReconcileAccounts(ProcessExpired(p, e.now, e.scripts));
  }

  // ----- A cancelled timer never runs -----

  lemma {:induction false} GoneForever(run: seq<Event>, more: seq<Event>, id: nat)
    requires var q := Exec(run); id < q.next && !Queued(q, id) && id !in q.ran
    ensures var q := Exec(run + more); id < q.next && !Queued(q, id) && id !in q.ran
    decreases |more|
  {
    if more == [] {
      assert run + more == run;
    } else {
      var front, e := more[..|more| - 1], more[|more| - 1];
      GoneForever(run, front, id);
      assert run + more == (run + front) + [e];
      ExecMore(run + front, e);
      ExecBalanced(run + front);
      var q := Exec(run + front);
      assert forall t :: t in q.timers ==> t.id != id;
      StepTracks(q, e, id, w => false);
    }
  }

  /** Once a cancellation has found its timer, the timer is gone and never runs, whatever comes after. */
  lemma CancelledNeverRuns(run: seq<Event>, id: nat, more: seq<Event>)
    requires Queued(Exec(run), id)
    ensures var q := Exec(run + [Ask(Cancel(id))] + more); !Queued(q, id) && id !in q.ran
  {
    ExecBalanced(run);
    ExecMore(run, Ask(Cancel(id)));
    CancelBalanced(Exec(run), id);
    ExecBalanced(run + [Ask(Cancel(id))]);
    GoneForever(run + [Ask(Cancel(id))], more, id);
  }

  /** The same for a timer that a callback has cancelled. */
  lemma OnceCancelled(run: seq<Event>, id: nat, more: seq<Event>)
    requires id in Exec(run).cancelled
    ensures var q := Exec(run + more); !Queued(q, id) && id !in q.ran
  {
    ExecBalanced(run);
    GoneForever(run, more, id);
  }

  // ----- Only what was asked for is cancelled -----

  ghost predicate Asks(e: Event, r: Request) {
    match e
    case Ask(request) => request == r
    case DriverDone(_, scripts) => exists script :: script in scripts && r in script
    case ControlDone(_, scripts) => exists script :: script in scripts && r in script
    case _ => false
  }

  lemma {:induction false} ServeAllAsked(q: Queue, script: seq<Request>, id: nat)
    requires id in ServeAll(q, script).cancelled && id !in q.cancelled
    ensures Cancel(id) in script
  {
    if script != [] {
      var front, last := script[..|script| - 1], script[|script| - 1];
      assert script == front + [last];
      if last != Cancel(id) {
        ServeCancels(ServeAll(q, front), last, id);
        ServeAllAsked(q, front, id);
      }
    }
  }

  lemma ServeCancels(q: Queue, r: Request, id: nat)
    requires r != Cancel(id)
    ensures id in Serve(q, r).cancelled <==> id in q.cancelled
  {
    match r
    case Add(when) => ReconcileAccounts(q.(timers := Insert(q.timers, Timer(when, q.next)), next := q.next + 1));
    case Cancel(other) =>
      ReconcileAccounts(q.(timers := Remove(q.timers, other), cancelled := q.cancelled + {other}));
  }

  lemma {:induction false} ProcessAsked(q: Queue, now: int, scripts: seq<seq<Request>>, id: nat)
    requires id in ProcessExpired(q, now, scripts).cancelled && id !in q.cancelled
    ensures exists script :: script in scripts && Cancel(id) in script
    decreases |scripts|, |q.timers|
  {
    if q.timers != [] && q.timers[0].when <= now {
      if scripts == [] {
        ProcessAsked(Popped(q), now, [], id);
      } else {
        assert scripts[0] in scripts;
        var served := ServeAll(Popped(q), scripts[0]);
        if id in served.cancelled {
          ServeAllAsked(Popped(q), scripts[0], id);
        } else {
          ProcessAsked(served, now, scripts[1..], id);
        }
      }
    }
  }

  /** Nothing is cancelled that nobody, neither a caller nor a callback, asked to cancel. */
  lemma {:induction false} CancelledWasAsked(run: seq<Event>, id: nat)
    requires id in Exec(run).cancelled
    ensures exists i :: 0 <= i < |run| && Asks(run[i], Cancel(id))
  {
    if run != [] {
      var front, e := run[..|run| - 1], run[|run| - 1];
      var q := Exec(front);
      if id in q.cancelled {
        CancelledWasAsked(front, id);
        var i :| 0 <= i < |front| && Asks(front[i], Cancel(id));
        assert run[i] == front[i];
      } else {
        StepAsked(q, e, id);
        assert run[|run| - 1] == e;
      }
    }
  }

  lemma StepAsked(q: Queue, e: Event, id: nat)
    requires id in Step(q, e).cancelled && id !in q.cancelled
    ensures Asks(e, Cancel(id))
  {
    var p, handles := StepCases(q, e);
    if e.Ask? {
      if e.request != Cancel(id) {
        ServeCancels(q, e.request, id);
      }
    } else if handles {
      ReconcileAccounts(ProcessExpired(p, e.now, e.scripts));
      ProcessAsked(p, e.now, e.scripts, id);
    }
  }

  // ----- Every request of a callback is served -----

  function Adds(script: seq<Request>): nat {
    if script == [] then 0
    else
      var r := script[|script| - 1];
      Adds(script[..|script| - 1]) + if r.Add? && r.when > 0 then 1 else 0
  }

  function AddsIn(scripts: seq<seq<Request>>): nat {
    if scripts == [] then 0 else Adds(scripts[0]) + AddsIn(scripts[1..])
  }

  lemma ServeAdds(q: Queue, r: Request)
    ensures Serve(q, r).next == q.next + (if r.Add? && r.when > 0 then 1 else 0) && Serve(q, r).ran == q.ran
  {
    match r
    case Add(when) => ReconcileAccounts(q.(timers := Insert(q.timers, Timer(when, q.next)), next := q.next + 1));
    case Cancel(id) =>
      ReconcileAccounts(q.(timers := Remove(q.timers, id), cancelled := q.cancelled + {id}));
  }

  lemma {:induction false} ServeAllAdds(q: Queue, script: seq<Request>)
    ensures ServeAll(q, script).next == q.next + Adds(script) && ServeAll(q, script).ran == q.ran
  {
    if script != [] {
      ServeAllAdds(q, script[..|script| - 1]);
      ServeAdds(ServeAll(q, script[..|script| - 1]), script[|script| - 1]);
    }
  }

  function Carried(scripts: seq<seq<Request>>, k: int): nat {
    AddsIn(if 0 <= k <= |scripts| then scripts[..k] else scripts)
  }

  lemma CarriedOne(scripts: seq<seq<Request>>, k: int)
    requires scripts != [] && k >= 1
    ensures Carried(scripts, k) == Adds(scripts[0]) + Carried(scripts[1..], k - 1)
  {
    if k <= |scripts| {
      assert scripts[..k][0] == scripts[0] && scripts[..k][1..] == scripts[1..][..k - 1];
    }
  }

  lemma CallbackServed(q: Queue, now: int, scripts: seq<seq<Request>>) returns (served: Queue)
    requires q.timers != [] && q.timers[0].when <= now && scripts != []
    ensures ProcessExpired(q, now, scripts) == ProcessExpired(served, now, scripts[1..])
    ensures served.next == q.next + Adds(scripts[0]) && |served.ran| == |q.ran| + 1
  {
    served := ServeAll(Popped(q), scripts[0]);
    ServeAllAdds(Popped(q), scripts[0]);
  }

  lemma {:induction false} NoneAdded(q: Queue, now: int)
    ensures ProcessExpired(q, now, []).next == q.next && |ProcessExpired(q, now, []).ran| >= |q.ran|
    decreases |q.timers|
  {
    if q.timers != [] && q.timers[0].when <= now {
      NoneAdded(Popped(q), now);
    }
  }

  /** Of the scripts, as many are carried out as timers run, and every timer they add gets a number. */
  lemma {:induction false} CallbacksServed(q: Queue, now: int, scripts: seq<seq<Request>>)
    ensures var p := ProcessExpired(q, now, scripts);
      |p.ran| >= |q.ran| && p.next == q.next + Carried(scripts, |p.ran| - |q.ran|)
    decreases |scripts|
  {
    var p := ProcessExpired(q, now, scripts);
    if scripts == [] {
      NoneAdded(q, now);
    } else if q.timers != [] && q.timers[0].when <= now {
      var served := CallbackServed(q, now, scripts);
      CallbacksServed(served, now, scripts[1..]);
      CarriedOne(scripts, |p.ran| - |q.ran|);
    }
  }

  lemma {:induction false} RanGrows(q: Queue, now: int, scripts: seq<seq<Request>>)
    ensures q.ran <= ProcessExpired(q, now, scripts).ran
    decreases |scripts|, |q.timers|
  {
    if q.timers != [] && q.timers[0].when <= now {
      if scripts == [] {
        RanGrows(Popped(q), now, []);
      } else {
        ServeAllAdds(Popped(q), scripts[0]);
        RanGrows(ServeAll(Popped(q), scripts[0]), now, scripts[1..]);
      }
    }
  }

  /** Of the timers that are due the earliest runs first. */
  lemma EarliestFirst(q: Queue, now: int, scripts: seq<seq<Request>>)
    requires Tidy(q) && q.timers != [] && q.timers[0].when <= now
    ensures var first := q.timers[0];
      && (forall t :: t in q.timers ==> first.when <= t.when)
      && q.ran + [first.id] <= ProcessExpired(q, now, scripts).ran
  {
    var p := Popped(q);
    if scripts == [] {
      RanGrows(p, now, []);
    } else {
      ServeAllAdds(p, scripts[0]);
      RanGrows(ServeAll(p, scripts[0]), now, scripts[1..]);
    }
  }

  // ----- What is armed -----

  /** Whatever is submitted is for the earliest timer: nothing wakes the loop without need. */
  lemma ArmedForEarliest(q: Queue)
    ensures var p := Reconcile(q);
      && (p.driver != q.driver ==> q.timers != [] && p.driver == Armed(q.timers[0].when))
      && (p.control != q.control ==>
          q.timers != [] && (p.control == Updating(q.timers[0].when) || p.control == Sleeping(q.timers[0].when)))
  {
  }
}
