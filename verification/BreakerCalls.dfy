/**
 A call of the circuit breaker that no other thread interrupts. `Called` takes the thread through the steps of the
 interleaving model until its call returns; the lemmas say which state that is, whatever the other threads have left
 behind.
 */
module BreakerCalls {
  import opened CircuitBreaker

  // ----- Running one thread -----

  /** No uninterrupted call has more steps than this left. */
  function Rest(s: State, t: nat): nat
    requires t < |s.pcs|
  {
    match s.pcs[t]
    case Idle => 0
    case Stamping(_) => 1
    case Owning(target, todo, stamp) =>
      |todo| + 1 + (if stamp < 0 then 1 else 0) + (if target == HalfOpen then 20 else 0)
    case TryTrip | TryClose | TryReopen | TryFallback(_) => 10
    case AddSuccess | Exhausted(_) => 11
    case Claiming(_) => 12
    case Probing => 13
    case SwapCounts(_, current, _) => if s.counts == current then 11 else 13
    case CheckClosed(_, current, _) => if s.counts == current then 12 else 14
    case LoadCounts(_) => 13
    case TryHalfOpen => 30
    case TimedOpen(_) => 31
    case SawOpen => 32
  }

  /** Only thread `t` has moved, and has less left to do. */
  ghost predicate Nearer(s: State, s': State, t: nat)
    requires t < |s.pcs|
  {
    |s'.pcs| == |s.pcs| && s'.pcs == s.pcs[t := s'.pcs[t]] && s'.clock == s.clock && Rest(s', t) < Rest(s, t)
  }

  lemma OutcomeNearer(cfg: Config, s: State, t: nat)
    requires t < |s.pcs|
    requires match s.pcs[t]
      case LoadCounts(_) | CheckClosed(_, _, _) | SwapCounts(_, _, _) => true
      case TryTrip | AddSuccess | TryClose | TryReopen => true
      case _ => false
    ensures Nearer(s, OutcomeStep(cfg, s, t, false), t)
  {
  }

  lemma RestFalls(cfg: Config, s: State, t: nat)
    requires t < |s.pcs| && s.pcs[t] != Idle
    ensures Nearer(s, GoStep(cfg, s, t, false), t)
  {
    match s.pcs[t]
    case LoadCounts(_) | CheckClosed(_, _, _) | SwapCounts(_, _, _) => OutcomeNearer(cfg, s, t);
    case TryTrip | AddSuccess | TryClose | TryReopen => OutcomeNearer(cfg, s, t);
    case _ =>
  }

  /** Thread `t` runs until its call returns; from every state it does return, and the others have not moved. */
  function Alone(cfg: Config, s: State, t: nat): (s': State)
    requires t < |s.pcs|
    ensures s'.pcs == s.pcs[t := Idle] && s'.clock == s.clock
    decreases Rest(s, t)
  {
    if s.pcs[t] == Idle then s
    else
      RestFalls(cfg, s, t);
      Alone(cfg, GoStep(cfg, s, t, false), t)
  }

  function Called(cfg: Config, s: State, t: nat, call: Call): State
    requires t < |s.pcs|
  {
    Alone(cfg, BeginStep(s, t, call), t)
  }

  /** Thread `t` has got from `s` to `s'` on its way. */
  ghost predicate Leads(cfg: Config, s: State, s': State, t: nat) {
    t < |s.pcs| == |s'.pcs| && Alone(cfg, s, t) == Alone(cfg, s', t)
  }

  lemma AtAgain(s: State, t: nat, pc: Pc, pc': Pc)
    requires t < |s.pcs|
    ensures At(At(s, t, pc), t, pc') == At(s, t, pc') && At(s, t, s.pcs[t]) == s
  {
  }

  // ----- Transitions -----

  function Stores(s: State, todo: seq<Cell>, now: nat): (s': State)
    ensures s'.pcs == s.pcs && s'.clock == s.clock
    decreases |todo|
  {
    if todo == [] then s else Stores(Store(s, todo[0], now), todo[1..], now)
  }

  function Published(s: State, target: Phase): State {
    s.(phase := target, published := s.published + [target], owner := -1,
       admitted := if target == HalfOpen then 0 else s.admitted)
  }

  function After(target: Phase): Pc {
    if target == HalfOpen then Probing else Idle
  }

  lemma OneStore(cfg: Config, s: State, t: nat, target: Phase, todo: seq<Cell>, stamp: int)
    requires t < |s.pcs| && todo != [] && (stamp >= 0 || Entered !in todo)
    ensures var now := if stamp < 0 then 0 else stamp;
      GoStep(cfg, At(s, t, Owning(target, todo, stamp)), t, false) ==
      At(Store(s, todo[0], now), t, Owning(target, todo[1..], stamp))
  {
  }

  lemma {:induction false} OwnerFinishes(cfg: Config, s: State, t: nat, target: Phase, todo: seq<Cell>, stamp: int)
    requires t < |s.pcs| && (stamp >= 0 || Entered !in todo)
    ensures var now := if stamp < 0 then 0 else stamp;
      Leads(cfg, At(s, t, Owning(target, todo, stamp)),
            At(Published(Stores(s, todo, now), target), t, After(target)), t)
    decreases |todo|
  {
    var now: nat := if stamp < 0 then 0 else stamp;
    var s0 := At(s, t, Owning(target, todo, stamp));
    if todo == [] {
      assert GoStep(cfg, s0, t, false) == At(Published(s, target), t, After(target));
    } else {
      OneStore(cfg, s, t, target, todo, stamp);
      OwnerFinishes(cfg, Store(s, todo[0], now), t, target, todo[1..], stamp);
    }
  }

  /** A whole transition: its cells are reset, its time is kept, and it is counted and published once. */
  function Settled(s: State, target: Phase, now: nat): State {
    var s' := s.(phase := target, published := s.published + [target], owner := -1, transitions := s.transitions + 1,
                 successes := 0, requests := 0, epoch := 0, probeTime := 0);
    match target
    case Open => s'.(entered := now)
    case HalfOpen => s'.(admitted := 0)
    case _ => s'.(counts := Closing(0, 0))
  }

  /** The state after the cells of a plan have been stored, in whatever order. */
  function Reset(s: State, cells: set<Cell>, now: nat): State {
    s.(entered := if Entered in cells then now else s.entered,
       counts := if Counts in cells then Closing(0, 0) else s.counts,
       successes := if Successes in cells then 0 else s.successes,
       requests := if Requests in cells then 0 else s.requests, epoch := if Requests in cells then 0 else s.epoch,
       probeTime := if ProbeTime in cells then 0 else s.probeTime,
       transitions := s.transitions + if Transitions in cells then 1 else 0)
  }

  ghost function Cells(todo: seq<Cell>): set<Cell> {
    set c | c in todo
  }

  lemma ResetMore(s: State, c: Cell, cells: set<Cell>, now: nat)
    requires c !in cells
    ensures Reset(Store(s, c, now), cells, now) == Reset(s, {c} + cells, now)
  {
  }

  lemma {:induction false} StoresReset(s: State, todo: seq<Cell>, now: nat)
    requires forall i, j :: 0 <= i < j < |todo| ==> todo[i] != todo[j]
    ensures Stores(s, todo, now) == Reset(s, Cells(todo), now)
    decreases |todo|
  {
    if todo != [] {
      var rest := Cells(todo[1..]);
      StoresReset(Store(s, todo[0], now), todo[1..], now);
      ResetMore(s, todo[0], rest, now);
      assert Cells(todo) == {todo[0]} + rest;
    }
  }

  /** Every transition resets the same four cells and one of its own. */
  lemma PlanCells(target: Phase, c: Cell)
    ensures forall i, j :: 0 <= i < j < |Plan(target)| ==> Plan(target)[i] != Plan(target)[j]
    ensures c in Plan(target) <==>
      match c case Entered => target == Open case Counts => !target.Open? && !target.HalfOpen? case _ => true
  {
    if c in {Requests, Successes, ProbeTime, Transitions} {
      var plan := Plan(target);
      var k := |plan|;
      assert plan[k - 1] == Transitions && plan[k - 2] == ProbeTime;
      assert plan[k - 3] == (if target == HalfOpen then Successes else Requests);
      assert plan[k - 4] == (if target == HalfOpen then Requests else Successes);
    }
  }

  lemma PlanSettles(s: State, target: Phase, now: nat, transit: Phase, owner: int)
    requires Stable(target)
    ensures Published(Stores(s.(phase := transit, owner := owner), Plan(target), now), target) ==
      Settled(s, target, now)
  {
    StoredPlan(s.(phase := transit, owner := owner), target, now);
  }

  lemma StoredPlan(s: State, target: Phase, now: nat)
    requires Stable(target)
    ensures Stores(s, Plan(target), now) ==
      s.(entered := if target == Open then now else s.entered,
         counts := if target == Closed then Closing(0, 0) else s.counts,
         successes := 0, requests := 0, epoch := 0, probeTime := 0, transitions := s.transitions + 1)
  {
    forall c {
      PlanCells(target, c);
    }
    StoresReset(s, Plan(target), now);
  }

  lemma ClockRead(cfg: Config, s: State, t: nat, target: Phase, todo: seq<Cell>)
    requires t < |s.pcs| && todo != [] && todo[0] == Entered
    ensures Leads(cfg, At(s, t, Owning(target, todo, -1)), At(s, t, Owning(target, todo, s.clock)), t)
  {
    var s0 := At(s, t, Owning(target, todo, -1));
    assert NeedsClock(s0.pcs[t]);
    assert GoStep(cfg, s0, t, false) == At(s, t, Owning(target, todo, s.clock));
  }

  lemma OwnerSettles(cfg: Config, s: State, t: nat, target: Phase, stamp: int)
    requires t < |s.pcs| && Stable(target) && (stamp >= 0 || target != Open)
    ensures Leads(cfg, At(s.(phase := Transit(target), owner := t), t, Owning(target, Plan(target), stamp)),
                  At(Settled(s, target, if stamp < 0 then 0 else stamp), t, After(target)), t)
  {
    PlanCells(target, Entered);
    PlanSettles(s, target, if stamp < 0 then 0 else stamp, Transit(target), t);
    OwnerFinishes(cfg, s.(phase := Transit(target), owner := t), t, target, Plan(target), stamp);
  }

  /** The exchange succeeds, and the transition is carried through. */
  lemma Transition(cfg: Config, s: State, t: nat, target: Phase, stamp: int, failed: Pc)
    requires t < |s.pcs| && Stable(target) && -1 <= stamp
    ensures Leads(cfg, Seize(s, t, s.phase, target, stamp, failed),
                  At(Settled(s, target, if stamp < 0 then s.clock else stamp), t, After(target)), t)
  {
    if target == Open && stamp < 0 {
      ClockRead(cfg, s.(phase := Transit(target), owner := t), t, target, Plan(target));
      OwnerSettles(cfg, s, t, target, s.clock);
    } else {
      OwnerSettles(cfg, s, t, target, stamp);
    }
  }

  // ----- Whole calls -----

  lemma OneGo(cfg: Config, s: State, s': State, t: nat)
    requires t < |s.pcs| && s.pcs[t] != Idle && s' == GoStep(cfg, s, t, false)
    ensures Leads(cfg, s, s', t)
  {
    RestFalls(cfg, s, t);
  }

  lemma CountLeads(cfg: Config, s: State, t: nat, failing: bool)
    requires t < |s.pcs| && s.phase == Closed
    ensures var c := Counted(cfg, failing, s.counts);
      Leads(cfg, At(s, t, LoadCounts(failing)), At(s.(counts := c), t, Tripping(cfg, failing, c.failures)), t)
  {
    var c := Counted(cfg, failing, s.counts);
    var s1 := At(s, t, CheckClosed(failing, s.counts, 0));
    var s2 := At(s, t, SwapCounts(failing, s.counts, c.failures));
    OneGo(cfg, At(s, t, LoadCounts(failing)), s1, t);
    OneGo(cfg, s1, s2, t);
    OneGo(cfg, s2, At(s.(counts := c), t, Tripping(cfg, failing, c.failures)), t);
  }

  lemma Trips(cfg: Config, s: State, t: nat)
    requires t < |s.pcs| && s.phase == Closed
    ensures Leads(cfg, At(s, t, TryTrip), At(Settled(s, Open, s.clock), t, Idle), t)
  {
    OneGo(cfg, At(s, t, TryTrip), Seize(s, t, Closed, Open, -1, Idle), t);
    Transition(cfg, s, t, Open, -1, Idle);
  }

  /** A failure of the closed breaker counts, and opens it when the count reaches the threshold. */
  lemma LoneFailureClosed(cfg: Config, s: State, t: nat)
    requires t < |s.pcs| && s.pcs[t] == Idle && s.phase == Closed
    ensures var n := Increment(s.counts.failures);
      var s' := s.(counts := Closing(n, 0));
      Called(cfg, s, t, OnFailure) == if n >= Threshold(cfg.failureThreshold) then Settled(s', Open, s.clock) else s'
  {
    var n := Increment(s.counts.failures);
    CountLeads(cfg, s, t, true);
    if n >= Threshold(cfg.failureThreshold) {
      Trips(cfg, s.(counts := Closing(n, 0)), t);
    }
  }

  /** A success of the closed breaker forgives its failures only once enough successes have come in a row. */
  lemma LoneSuccessClosed(cfg: Config, s: State, t: nat)
    requires t < |s.pcs| && s.pcs[t] == Idle && s.phase == Closed
    ensures var n := Increment(s.counts.successes);
      Called(cfg, s, t, OnSuccess) == s.(counts :=
        if n >= Threshold(cfg.successThreshold) then Closing(0, 0) else Closing(s.counts.failures, n))
  {
    CountLeads(cfg, s, t, false);
  }

  /** Any failure of the half-open breaker opens it again. */
  lemma LoneFailureHalfOpen(cfg: Config, s: State, t: nat)
    requires t < |s.pcs| && s.pcs[t] == Idle && s.phase == HalfOpen
    ensures Called(cfg, s, t, OnFailure) == Settled(s, Open, s.clock)
  {
    OneGo(cfg, At(s, t, TryReopen), Seize(s, t, HalfOpen, Open, -1, Idle), t);
    Transition(cfg, s, t, Open, -1, Idle);
  }

  /** Enough successes of the half-open breaker close it. */
  lemma LoneSuccessHalfOpen(cfg: Config, s: State, t: nat)
    requires t < |s.pcs| && s.pcs[t] == Idle && s.phase == HalfOpen
    ensures Called(cfg, s, t, OnSuccess) ==
      if s.successes + 1 >= Threshold(cfg.successThreshold) then Settled(s, Closed, s.clock)
      else s.(successes := s.successes + 1)
  {
    var s' := s.(successes := s.successes + 1);
    var enough := s.successes + 1 >= Threshold(cfg.successThreshold);
    OneGo(cfg, At(s, t, AddSuccess), At(s', t, if enough then TryClose else Idle), t);
    if enough {
      OneGo(cfg, At(s', t, TryClose), Seize(s', t, HalfOpen, Closed, -1, Idle), t);
      Transition(cfg, s', t, Closed, -1, Idle);
    }
  }

  /**
   A caller of the half-open breaker takes one of the probes. When none is left it is turned away, and a cycle whose
   last probe is as old as the timeout is given up: the breaker opens at the time the caller read.
   */
  function Probe(cfg: Config, s: State): State {
    if s.requests < Unsigned(cfg.maxRequests) then
      s.(requests := s.requests + 1, epoch := s.epoch + 1, admitted := s.admitted + 1, probeTime := s.clock,
         allowed := s.allowed + 1)
    else if cfg.timeout > 0 && Elapsed(s.clock, s.probeTime) >= Unsigned(cfg.timeout) then Settled(s, Open, s.clock)
    else s.(requests := s.requests + 1)
  }

  lemma ProbeAdmitted(cfg: Config, s: State, t: nat)
    requires t < |s.pcs| && s.phase == HalfOpen && s.requests < Unsigned(cfg.maxRequests)
    ensures Leads(cfg, At(s, t, Claiming(s.clock)), At(Probe(cfg, s), t, Idle), t)
  {
    var s1 := Claim(cfg, s, t, s.clock);
    OneGo(cfg, At(s, t, Claiming(s.clock)), s1, t);
    OneGo(cfg, s1, At(Probe(cfg, s), t, Idle), t);
  }

  /** A caller that found no probe left gives a stale cycle up. */
  lemma FallsBack(cfg: Config, s: State, t: nat, now: nat)
    requires t < |s.pcs| && s.phase == HalfOpen
    ensures Leads(cfg, At(s, t, TryFallback(now)), At(Settled(s, Open, now), t, Idle), t)
  {
    OneGo(cfg, At(s, t, TryFallback(now)), Seize(s, t, HalfOpen, Open, now, Idle), t);
    Transition(cfg, s, t, Open, now, Idle);
  }

  lemma ProbeRefused(cfg: Config, s: State, t: nat)
    requires t < |s.pcs| && s.phase == HalfOpen && s.requests >= Unsigned(cfg.maxRequests)
    ensures Leads(cfg, At(s, t, Claiming(s.clock)), At(Probe(cfg, s), t, Idle), t)
  {
    var s' := s.(requests := s.requests + 1);
    var stale := cfg.timeout > 0 && Elapsed(s.clock, s.probeTime) >= Unsigned(cfg.timeout);
    OneGo(cfg, At(s, t, Claiming(s.clock)), At(s', t, Exhausted(s.clock)), t);
    OneGo(cfg, At(s', t, Exhausted(s.clock)), At(s', t, if stale then TryFallback(s.clock) else Idle), t);
    if stale {
      FallsBack(cfg, s', t, s.clock);
    }
  }

  lemma ProbeLeads(cfg: Config, s: State, t: nat)
    requires t < |s.pcs| && s.phase == HalfOpen
    ensures Leads(cfg, At(s, t, Probing), At(Probe(cfg, s), t, Idle), t)
  {
    OneGo(cfg, At(s, t, Probing), At(s, t, Claiming(s.clock)), t);
    if s.requests < Unsigned(cfg.maxRequests) {
      ProbeAdmitted(cfg, s, t);
    } else {
      ProbeRefused(cfg, s, t);
    }
  }

  lemma LoneCallHalfOpen(cfg: Config, s: State, t: nat)
    requires t < |s.pcs| && s.pcs[t] == Idle && s.phase == HalfOpen
    ensures Called(cfg, s, t, AllowRequest) == Probe(cfg, s)
  {
    ProbeLeads(cfg, s, t);
  }

  /**
   An open breaker lets nobody in before the timeout; the first caller after it opens a probe cycle and takes part.
   */
  lemma LoneCallOpen(cfg: Config, s: State, t: nat)
    requires t < |s.pcs| && s.pcs[t] == Idle && s.phase == Open
    ensures Called(cfg, s, t, AllowRequest) ==
      if Elapsed(s.clock, s.entered) < Unsigned(cfg.timeout) then s else Probe(cfg, Settled(s, HalfOpen, s.clock))
  {
    var early := Elapsed(s.clock, s.entered) < Unsigned(cfg.timeout);
    OneGo(cfg, At(s, t, SawOpen), At(s, t, TimedOpen(s.clock)), t);
    OneGo(cfg, At(s, t, TimedOpen(s.clock)), At(s, t, if early then Idle else TryHalfOpen), t);
    if !early {
      OneGo(cfg, At(s, t, TryHalfOpen), Seize(s, t, Open, HalfOpen, -1, Idle), t);
      Transition(cfg, s, t, HalfOpen, -1, Idle);
      ProbeLeads(cfg, Settled(s, HalfOpen, s.clock), t);
    }
  }

  /**
   A closed breaker lets a caller through and an open one ignores an outcome. While a transition is going on callers
   are turned away and outcomes ignored, and nothing changes.
   */
  lemma LoneCallIdle(cfg: Config, s: State, t: nat, call: Call)
    requires t < |s.pcs| && s.pcs[t] == Idle
    requires s.phase in {ToOpen, ToHalfOpen, ToClosed} || s.phase == if call == AllowRequest then Closed else Open
    ensures Called(cfg, s, t, call) ==
      s.(allowed := s.allowed + if call == AllowRequest && s.phase == Closed then 1 else 0)
  {
    AtAgain(s, t, Idle, Idle);
  }

  // ----- Reaching states -----

  ghost predicate Reachable(cfg: Config, threads: nat, s: State) {
    exists run :: Exec(cfg, threads, run) == s
  }

  lemma Reach(cfg: Config, threads: nat, s: State, a: Action)
    requires Reachable(cfg, threads, s)
    ensures Reachable(cfg, threads, Step(cfg, s, a))
  {
    var run :| Exec(cfg, threads, run) == s;
    assert (run + [a])[..|run + [a]| - 1] == run;
    assert Exec(cfg, threads, run + [a]) == Step(cfg, s, a);
  }

  lemma {:induction false} ReachAlone(cfg: Config, threads: nat, s: State, t: nat)
    requires Reachable(cfg, threads, s) && t < |s.pcs|
    ensures Reachable(cfg, threads, Alone(cfg, s, t))
    decreases Rest(s, t)
  {
    if s.pcs[t] != Idle {
      RestFalls(cfg, s, t);
      Reach(cfg, threads, s, Go(t, false));
      ReachAlone(cfg, threads, GoStep(cfg, s, t, false), t);
    }
  }

  lemma ReachCalled(cfg: Config, threads: nat, s: State, t: nat, call: Call)
    requires Reachable(cfg, threads, s) && t < |s.pcs| && s.pcs[t] == Idle
    ensures Reachable(cfg, threads, Called(cfg, s, t, call))
  {
    Reach(cfg, threads, s, Begin(t, call));
    ReachAlone(cfg, threads, BeginStep(s, t, call), t);
  }

  lemma {:induction false} ReachPublished(cfg: Config, threads: nat, s: State, t: nat, target: Phase,
    todo: seq<Cell>, stamp: int)
    requires t < |s.pcs| && (stamp >= 0 || Entered !in todo)
    requires Reachable(cfg, threads, At(s, t, Owning(target, todo, stamp)))
    ensures var now := if stamp < 0 then 0 else stamp;
      Reachable(cfg, threads, At(Published(Stores(s, todo, now), target), t, After(target)))
    decreases |todo|
  {
    var now: nat := if stamp < 0 then 0 else stamp;
    var s0 := At(s, t, Owning(target, todo, stamp));
    Reach(cfg, threads, s0, Go(t, false));
    if todo == [] {
      assert GoStep(cfg, s0, t, false) == At(Published(s, target), t, After(target));
    } else {
      OneStore(cfg, s, t, target, todo, stamp);
      ReachPublished(cfg, threads, Store(s, todo[0], now), t, target, todo[1..], stamp);
    }
  }
}
