/**
 Two things one expects of the circuit breaker and when it keeps to them: that only a half-open breaker lets probes
 through, and that it waits out its timeout before it probes. Both hold exactly as long as no second thread can lag
 behind a decision it has already taken, or there is nothing to gain from it.
 */
module BreakerConditions {
  import opened CircuitBreaker
  import opened BreakerCalls

  /** No step of any run admits a probe unless the breaker is half-open. */
  ghost predicate AdmitsOnlyHalfOpen(cfg: Config, threads: nat) {
    forall s, a :: Reachable(cfg, threads, s) && Step(cfg, s, a).epoch > s.epoch ==> s.phase == HalfOpen
  }

  /** No run finds the breaker half-open before the timeout since it last opened is over. */
  ghost predicate WaitsOutTimeout(cfg: Config, threads: nat) {
    forall s :: Reachable(cfg, threads, s) && s.phase == HalfOpen ==> s.clock - s.entered >= cfg.timeout
  }

  // ----- What holds whenever the condition does -----

  /** No thread remembers a time that is still to come. */
  predicate Past(pc: Pc, clock: nat) {
    match pc
    case TimedOpen(now) => now <= clock
    case Claiming(now) => now <= clock
    case Stamping(now) => now <= clock
    case Exhausted(now) => now <= clock
    case TryFallback(now) => now <= clock
    case Owning(_, _, stamp) => stamp <= clock
    case _ => true
  }

  ghost predicate Punctual(s: State) {
    s.entered <= s.clock && forall t :: 0 <= t < |s.pcs| ==> Past(s.pcs[t], s.clock)
  }

  /** A step of thread `t` moves nobody else, and the times it leaves behind are past. */
  ghost predicate InTime(s: State, s': State, t: nat)
    requires t < |s.pcs|
  {
    && |s'.pcs| == |s.pcs| && s'.pcs == s.pcs[t := s'.pcs[t]]
    && s'.clock == s.clock && Past(s'.pcs[t], s.clock) && s'.entered <= s.clock
  }

  lemma OwnInTime(s: State, t: nat)
    requires t < |s.pcs| && s.pcs[t].Owning? && Past(s.pcs[t], s.clock) && s.entered <= s.clock
    ensures InTime(s, Own(s, t), t)
  {
  }

  lemma AllowInTime(cfg: Config, s: State, t: nat)
    requires t < |s.pcs| && Past(s.pcs[t], s.clock) && s.entered <= s.clock
    ensures InTime(s, AllowStep(cfg, s, t), t)
  {
  }

  lemma OutcomeInTime(cfg: Config, s: State, t: nat, spurious: bool)
    requires t < |s.pcs| && Past(s.pcs[t], s.clock) && s.entered <= s.clock
    ensures InTime(s, OutcomeStep(cfg, s, t, spurious), t)
  {
  }

  lemma GoPunctual(cfg: Config, s: State, t: nat, spurious: bool)
    requires t < |s.pcs| && Punctual(s)
    ensures Punctual(GoStep(cfg, s, t, spurious))
  {
    if s.pcs[t].Owning? {
      OwnInTime(s, t);
    } else {
      AllowInTime(cfg, s, t);
      OutcomeInTime(cfg, s, t, spurious);
    }
  }

  lemma StepPunctual(cfg: Config, s: State, a: Action)
    requires Punctual(s)
    ensures Punctual(Step(cfg, s, a))
  {
    if a.Go? && a.t < |s.pcs| {
      GoPunctual(cfg, s, a.t, a.spurious);
    }
  }

  lemma {:induction false} ExecPunctual(cfg: Config, threads: nat, run: seq<Action>)
    ensures Punctual(Exec(cfg, threads, run))
  {
    if run != [] {
      ExecPunctual(cfg, threads, run[..|run| - 1]);
      StepPunctual(cfg, Exec(cfg, threads, run[..|run| - 1]), run[|run| - 1]);
    }
  }

  /** The only thread is where the state of the breaker says, and has waited as long as it must. */
  predicate SoloAt(cfg: Config, s: State, pc: Pc) {
    match pc
    case SawOpen => s.phase == Open
    case TimedOpen(now) => s.phase == Open && s.entered <= now
    case TryHalfOpen => s.phase == Open && s.clock - s.entered >= cfg.timeout
    case Probing => s.phase == HalfOpen
    case Claiming(_) => s.phase == HalfOpen
    case Owning(target, todo, _) =>
      !Stable(s.phase) && (target == HalfOpen ==> Entered !in todo && s.clock - s.entered >= cfg.timeout)
    case _ => true
  }

  ghost predicate Solo(cfg: Config, s: State) {
    && |s.pcs| <= 1 && (|s.pcs| == 1 ==> SoloAt(cfg, s, s.pcs[0]))
    && (s.phase == HalfOpen ==> s.clock - s.entered >= cfg.timeout)
  }

  /** The comparison lets an open breaker go after the timeout, or when the time read is older than the opening. */
  lemma TimeoutTest(now: nat, entered: nat, timeout: nat)
    requires now < WORD && entered < WORD && timeout < WORD
    ensures Elapsed(now, entered) >= timeout <==>
      (now >= entered && now - entered >= timeout) || (now < entered && now + WORD - entered >= timeout)
  {
  }

  lemma WaitedOut(now: nat, since: nat, timeout: int)
    requires since <= now && timeout < WORD && Elapsed(now, since) >= Unsigned(timeout)
    ensures now - since >= timeout
  {
  }

  lemma AllowSolo(cfg: Config, s: State)
    requires cfg.timeout < WORD && Punctual(s) && Solo(cfg, s) && |s.pcs| == 1 && !s.pcs[0].Owning?
    ensures Solo(cfg, AllowStep(cfg, s, 0))
  {
    if s.pcs[0].TimedOpen? && Elapsed(s.pcs[0].now, s.entered) >= Unsigned(cfg.timeout) {
      WaitedOut(s.pcs[0].now, s.entered, cfg.timeout);
    }
  }

  lemma OwnSolo(cfg: Config, s: State)
    requires Punctual(s) && Solo(cfg, s) && |s.pcs| == 1 && s.pcs[0].Owning?
    ensures Solo(cfg, Own(s, 0))
  {
    var todo := s.pcs[0].todo;
    assert todo != [] ==> forall c :: c in todo[1..] ==> c in todo;
  }

  lemma OutcomeSolo(cfg: Config, s: State, spurious: bool)
    requires Punctual(s) && Solo(cfg, s) && |s.pcs| == 1 && !s.pcs[0].Owning?
    ensures Solo(cfg, OutcomeStep(cfg, s, 0, spurious))
  {
  }

  lemma StepSolo(cfg: Config, s: State, a: Action)
    requires cfg.timeout < WORD && Punctual(s) && Solo(cfg, s)
    ensures Solo(cfg, Step(cfg, s, a))
  {
    if a.Go? && a.t < |s.pcs| {
      if s.pcs[0].Owning? {
        OwnSolo(cfg, s);
      } else {
        AllowSolo(cfg, s);
        OutcomeSolo(cfg, s, a.spurious);
      }
    }
  }

  lemma {:induction false} ExecSolo(cfg: Config, threads: nat, run: seq<Action>)
    requires threads <= 1 && cfg.timeout < WORD
    ensures Solo(cfg, Exec(cfg, threads, run))
  {
    if run == [] {
    } else {
      ExecSolo(cfg, threads, run[..|run| - 1]);
      ExecPunctual(cfg, threads, run[..|run| - 1]);
      StepSolo(cfg, Exec(cfg, threads, run[..|run| - 1]), run[|run| - 1]);
    }
  }

  lemma EpochRises(cfg: Config, s: State, a: Action)
    requires Step(cfg, s, a).epoch > s.epoch
    ensures a.Go? && a.t < |s.pcs| && s.pcs[a.t].Claiming? && s.requests < Unsigned(cfg.maxRequests)
  {
  }

  // ----- A run that breaks them whenever it does not -----

  /** The closed breaker counts failures up to just below the threshold. */
  lemma {:induction false} Failures(cfg: Config, threads: nat, k: nat)
    requires threads > 0 && k < Threshold(cfg.failureThreshold) && cfg.failureThreshold <= COUNT_MAX
    ensures Reachable(cfg, threads, Initial(threads).(counts := Closing(k, 0)))
  {
    if k == 0 {
      assert Exec(cfg, threads, []) == Initial(threads);
    } else {
      var s := Initial(threads).(counts := Closing(k - 1, 0));
      Failures(cfg, threads, k - 1);
      LoneFailureClosed(cfg, s, 0);
      ReachCalled(cfg, threads, s, 0, OnFailure);
    }
  }

  lemma {:induction false} Waits(cfg: Config, threads: nat, s: State, d: nat)
    requires Reachable(cfg, threads, s)
    ensures Reachable(cfg, threads, s.(clock := s.clock + d))
  {
    if d > 0 {
      Waits(cfg, threads, s, d - 1);
      Reach(cfg, threads, s.(clock := s.clock + (d - 1)), Tick);
    }
  }

  /** The breaker has tripped at time zero and the timeout has just passed. */
  lemma TimedOut(cfg: Config, threads: nat) returns (s: State)
    requires threads > 0 && cfg.failureThreshold <= COUNT_MAX
    ensures Reachable(cfg, threads, s) && s.phase == Open && s.pcs == seq(threads, i => Idle)
    ensures s.entered == 0 && s.clock == Unsigned(cfg.timeout)
  {
    var n: nat := Threshold(cfg.failureThreshold) - 1;
    s := Initial(threads).(counts := Closing(n, 0));
    Failures(cfg, threads, n);
    LoneFailureClosed(cfg, s, 0);
    ReachCalled(cfg, threads, s, 0, OnFailure);
    s := Called(cfg, s, 0, OnFailure);
    Waits(cfg, threads, s, Unsigned(cfg.timeout));
    s := s.(clock := s.clock + Unsigned(cfg.timeout));
  }

  /** Thread 0 has opened a probe cycle and thread 1 is about to claim a probe of it. */
  lemma Lagging(cfg: Config, threads: nat) returns (s: State)
    requires threads > 1 && cfg.failureThreshold <= COUNT_MAX && Unsigned(cfg.maxRequests) > 0
    ensures Reachable(cfg, threads, s) && s.phase == HalfOpen && |s.pcs| == threads && s.pcs[0] == Idle
    ensures s.pcs[1].Claiming?
  {
    s := TimedOut(cfg, threads);
    LoneCallOpen(cfg, s, 0);
    ReachCalled(cfg, threads, s, 0, AllowRequest);
    s := Called(cfg, s, 0, AllowRequest);
    assert s.phase == HalfOpen;
    Reach(cfg, threads, s, Begin(1, AllowRequest));
    s := Step(cfg, s, Begin(1, AllowRequest));
    assert s.pcs[1] == Probing;
    Reach(cfg, threads, s, Go(1, false));
    s := Step(cfg, s, Go(1, false));
  }

  /** The breaker opens again, and the late claim is admitted all the same. */
  lemma AdmittedWhileOpen(cfg: Config, threads: nat) returns (s: State)
    requires threads > 1 && cfg.failureThreshold <= COUNT_MAX && Unsigned(cfg.maxRequests) > 0
    ensures Reachable(cfg, threads, s) && s.phase == Open && Step(cfg, s, Go(1, false)).epoch > s.epoch
  {
    s := Lagging(cfg, threads);
    LoneFailureHalfOpen(cfg, s, 0);
    ReachCalled(cfg, threads, s, 0, OnFailure);
    s := Called(cfg, s, 0, OnFailure);
    assert s.pcs[1].Claiming? && s.requests == 0;
  }

  /** A caller has found the timeout over and is about to open a probe cycle. */
  lemma Dawdles(cfg: Config, threads: nat, s: State, t: nat)
    requires Reachable(cfg, threads, s) && t < |s.pcs| && s.pcs[t] == Idle && s.phase == Open
    requires Elapsed(s.clock, s.entered) >= Unsigned(cfg.timeout)
    ensures Reachable(cfg, threads, At(s, t, TryHalfOpen))
  {
    Reach(cfg, threads, s, Begin(t, AllowRequest));
    assert Step(cfg, s, Begin(t, AllowRequest)) == At(s, t, SawOpen);
    Reach(cfg, threads, At(s, t, SawOpen), Go(t, false));
    assert Step(cfg, At(s, t, SawOpen), Go(t, false)) == At(s, t, TimedOpen(s.clock));
    Reach(cfg, threads, At(s, t, TimedOpen(s.clock)), Go(t, false));
  }

  /** Meanwhile thread 0 opens the cycle, and the breaker opens again at once. */
  lemma Overtaken(cfg: Config, threads: nat) returns (s: State)
    requires threads > 1 && cfg.failureThreshold <= COUNT_MAX && 0 < cfg.timeout < WORD
    ensures Reachable(cfg, threads, s) && s.phase == Open && s.entered == s.clock
    ensures |s.pcs| == threads && s.pcs[1] == TryHalfOpen
  {
    s := TimedOut(cfg, threads);
    Dawdles(cfg, threads, s, 1);
    s := At(s, 1, TryHalfOpen);
    LoneCallOpen(cfg, s, 0);
    ReachCalled(cfg, threads, s, 0, AllowRequest);
    s := Called(cfg, s, 0, AllowRequest);
    if Unsigned(cfg.maxRequests) > 0 {
      LoneFailureHalfOpen(cfg, s, 0);
      ReachCalled(cfg, threads, s, 0, OnFailure);
      s := Called(cfg, s, 0, OnFailure);
    }
  }

  /** Thread 1 opens a cycle of its own, no time after the breaker opened. */
  lemma ProbesTooEarly(cfg: Config, threads: nat) returns (s: State)
    requires threads > 1 && cfg.failureThreshold <= COUNT_MAX && 0 < cfg.timeout < WORD
    ensures Reachable(cfg, threads, s) && s.phase == HalfOpen && s.clock == s.entered
  {
    var s0 := Overtaken(cfg, threads);
    var s1 := s0.(phase := ToHalfOpen, owner := 1);
    Reach(cfg, threads, s0, Go(1, false));
    assert Step(cfg, s0, Go(1, false)) == At(s1, 1, Owning(HalfOpen, Plan(HalfOpen), -1));
    ReachPublished(cfg, threads, s1, 1, HalfOpen, Plan(HalfOpen), -1);
    StoredPlan(s1, HalfOpen, 0);
    s := At(Published(Stores(s1, Plan(HalfOpen), 0), HalfOpen), 1, Probing);
  }

  // ----- The exact conditions -----

  lemma ProbesOnlyHalfOpen(cfg: Config, threads: nat)
    requires cfg.failureThreshold <= COUNT_MAX && cfg.timeout < WORD
    ensures AdmitsOnlyHalfOpen(cfg, threads) <==> threads <= 1 || Unsigned(cfg.maxRequests) == 0
  {
    if threads > 1 && Unsigned(cfg.maxRequests) > 0 {
      var s := AdmittedWhileOpen(cfg, threads);
    } else {
      forall s, a | Reachable(cfg, threads, s) && Step(cfg, s, a).epoch > s.epoch ensures s.phase == HalfOpen {
        EpochRises(cfg, s, a);
        if threads <= 1 {
          var run :| Exec(cfg, threads, run) == s;
          ExecSolo(cfg, threads, run);
        }
      }
    }
  }

  lemma ProbesAfterTimeout(cfg: Config, threads: nat)
    requires cfg.failureThreshold <= COUNT_MAX && cfg.timeout < WORD
    ensures WaitsOutTimeout(cfg, threads) <==> threads <= 1 || cfg.timeout <= 0
  {
    if threads > 1 && cfg.timeout > 0 {
      var s := ProbesTooEarly(cfg, threads);
    } else {
      forall s | Reachable(cfg, threads, s) && s.phase == HalfOpen ensures s.clock - s.entered >= cfg.timeout {
        var run :| Exec(cfg, threads, run) == s;
        ExecPunctual(cfg, threads, run);
        if threads <= 1 {
          ExecSolo(cfg, threads, run);
        }
      }
    }
  }
}
