/**
 The circuit breaker as the interleaving of its atomic steps. Any number of threads run `AllowRequest`, `OnSuccess` and
 `OnFailure`; every load, store, read-modify-write and clock reading is one step.
 */
module CircuitBreaker {

  const WORD: nat := 0x1_0000_0000_0000_0000
  const COUNT_MAX: nat := 0xFFFF_FFFF

  datatype Config = Config(failureThreshold: int, successThreshold: int, timeout: int, maxRequests: int)

  datatype Phase = Closed | Open | HalfOpen | ToOpen | ToHalfOpen | ToClosed

  /** The variables that the owner of a transition resets before it publishes the new state. */
  datatype Cell = Entered | Counts | Successes | Requests | ProbeTime | Transitions

  datatype Closing = Closing(failures: nat, successes: nat)

  datatype Pc =
    | Idle
    | SawOpen | TimedOpen(now: nat) | TryHalfOpen
    | Probing | Claiming(now: nat) | Stamping(now: nat) | Exhausted(now: nat) | TryFallback(now: nat)
    | LoadCounts(failing: bool) | CheckClosed(failing: bool, current: Closing, seen: nat)
    | SwapCounts(failing: bool, current: Closing, seen: nat)
    | TryTrip | AddSuccess | TryClose | TryReopen
    | Owning(target: Phase, todo: seq<Cell>, stamp: int)  // a negative time has not been read yet

  datatype Call = AllowRequest | OnSuccess | OnFailure

  /** A thread takes its next step; a weak exchange may fail for no reason. Or time passes. */
  datatype Action = Begin(t: nat, call: Call) | Go(t: nat, spurious: bool) | Tick

  /**
   `published` lists the states stored so far, `owner` is the thread inside a transition, `epoch` counts the probes
   admitted since the request counter was last reset, `admitted` those since HalfOpen was last published and `allowed`
   all calls of `AllowRequest` that have returned true.
   */
  datatype State = State(
    phase: Phase, counts: Closing, successes: nat, requests: nat, probeTime: nat, entered: nat, transitions: nat,
    clock: nat, pcs: seq<Pc>, published: seq<Phase>, owner: int, epoch: nat, admitted: nat, allowed: nat)

  function Initial(threads: nat): State {
    State(Closed, Closing(0, 0), 0, 0, 0, 0, 0, 0, seq(threads, i => Idle), [Closed], -1, 0, 0, 0)
  }

  /** A signed number converted to 64 unsigned bits. */
  function Unsigned(x: int): nat {
    x % WORD
  }

  function Elapsed(now: nat, since: nat): nat {
    Unsigned(now - since)
  }

  function Threshold(x: int): nat {
    if x > 0 then x else 1
  }

  function Increment(x: nat): nat {
    if x == COUNT_MAX then x else x + 1
  }

  function Transit(target: Phase): Phase {
    match target
    case Open => ToOpen
    case HalfOpen => ToHalfOpen
    case _ => ToClosed
  }

  function Plan(target: Phase): seq<Cell> {
    match target
    case HalfOpen => [Requests, Successes, ProbeTime, Transitions]
    case Open => [Entered, Successes, Requests, ProbeTime, Transitions]
    case _ => [Counts, Successes, Requests, ProbeTime, Transitions]
  }

  function At(s: State, t: nat, pc: Pc): State
    requires t < |s.pcs|
  {
    s.(pcs := s.pcs[t := pc])
  }

  /** The exchange that takes ownership of a transition, if the state is still `from`. */
  function Seize(s: State, t: nat, from: Phase, target: Phase, now: int, failed: Pc): State
    requires t < |s.pcs|
  {
    if s.phase == from then At(s, t, Owning(target, Plan(target), now)).(phase := Transit(target), owner := t)
    else At(s, t, failed)
  }

  function Store(s: State, c: Cell, now: nat): State {
    match c
    case Entered => s.(entered := now)
    case Counts => s.(counts := Closing(0, 0))
    case Successes => s.(successes := 0)
    case Requests => s.(requests := 0, epoch := 0)
    case ProbeTime => s.(probeTime := 0)
    case Transitions => s.(transitions := s.transitions + 1)
  }

  /** The owner has to read the clock before it stores the time at which the breaker opened. */
  predicate NeedsClock(pc: Pc) {
    pc.Owning? && pc.todo != [] && pc.todo[0] == Entered && pc.stamp < 0
  }

  /** The owner stores the next cell, or publishes; whoever opens the probe cycle goes on to probe. */
  function Own(s: State, t: nat): State
    requires t < |s.pcs| && s.pcs[t].Owning?
  {
    var pc := s.pcs[t];
    if NeedsClock(pc) then At(s, t, pc.(stamp := s.clock))
    else if pc.todo != [] then
      At(Store(s, pc.todo[0], if pc.stamp < 0 then 0 else pc.stamp), t, pc.(todo := pc.todo[1..]))
    else
      At(s, t, if pc.target == HalfOpen then Probing else Idle)
        .(phase := pc.target, published := s.published + [pc.target], owner := -1,
          admitted := if pc.target == HalfOpen then 0 else s.admitted)
  }

  function BeginStep(s: State, t: nat, call: Call): State
    requires t < |s.pcs|
  {
    match call
    case AllowRequest =>
      At(s, t, if s.phase == Open then SawOpen else if s.phase == HalfOpen then Probing else Idle)
        .(allowed := s.allowed + if s.phase == Closed then 1 else 0)
    case OnSuccess =>
      At(s, t, if s.phase == Closed then LoadCounts(false) else if s.phase == HalfOpen then AddSuccess else Idle)
    case OnFailure =>
      At(s, t, if s.phase == Closed then LoadCounts(true) else if s.phase == HalfOpen then TryReopen else Idle)
  }

  function Claim(cfg: Config, s: State, t: nat, now: nat): State
    requires t < |s.pcs|
  {
    if s.requests < Unsigned(cfg.maxRequests) then
      At(s, t, Stamping(now)).(
        requests := s.requests + 1, epoch := s.epoch + 1,
        admitted := if s.phase == HalfOpen then s.admitted + 1 else s.admitted)
    else At(s, t, Exhausted(now)).(requests := s.requests + 1)
  }

  function AllowStep(cfg: Config, s: State, t: nat): State
    requires t < |s.pcs|
  {
    match s.pcs[t]
    case SawOpen => At(s, t, TimedOpen(s.clock))
    case TimedOpen(now) =>
      At(s, t, if Elapsed(now, s.entered) < Unsigned(cfg.timeout) then Idle else TryHalfOpen)
    case TryHalfOpen => Seize(s, t, Open, HalfOpen, -1, if s.phase == HalfOpen then Probing else Idle)
    case Probing => At(s, t, Claiming(s.clock))
    case Claiming(now) => Claim(cfg, s, t, now)
    case Stamping(now) => At(s, t, Idle).(probeTime := now, allowed := s.allowed + 1)
    case Exhausted(now) =>
      At(s, t, if cfg.timeout > 0 && Elapsed(now, s.probeTime) >= Unsigned(cfg.timeout) then TryFallback(now) else Idle)
    case TryFallback(now) => Seize(s, t, HalfOpen, Open, now, Idle)
    case _ => s
  }

  function Counted(cfg: Config, failing: bool, c: Closing): Closing {
    if failing then Closing(Increment(c.failures), 0)
    else if Increment(c.successes) >= Threshold(cfg.successThreshold) then Closing(0, 0)
    else Closing(c.failures, Increment(c.successes))
  }

  /** After the counting loop a failure trips the breaker if the last count it computed reaches the threshold. */
  function Tripping(cfg: Config, failing: bool, seen: nat): Pc {
    if failing && seen >= Threshold(cfg.failureThreshold) then TryTrip else Idle
  }

  function OutcomeStep(cfg: Config, s: State, t: nat, spurious: bool): State
    requires t < |s.pcs|
  {
    match s.pcs[t]
    case LoadCounts(failing) => At(s, t, CheckClosed(failing, s.counts, 0))
    case CheckClosed(failing, current, seen) =>
      if s.phase != Closed then At(s, t, Tripping(cfg, failing, seen))
      else At(s, t, SwapCounts(failing, current, Counted(cfg, failing, current).failures))
    case SwapCounts(failing, current, seen) =>
      if s.counts == current && !spurious then
        At(s, t, Tripping(cfg, failing, seen)).(counts := Counted(cfg, failing, current))
      else At(s, t, CheckClosed(failing, s.counts, seen))
    case TryTrip => Seize(s, t, Closed, Open, -1, Idle)
    case AddSuccess =>
      At(s, t, if s.successes + 1 >= Threshold(cfg.successThreshold) then TryClose else Idle)
        .(successes := s.successes + 1)
    case TryClose => Seize(s, t, HalfOpen, Closed, -1, Idle)
    case TryReopen => Seize(s, t, HalfOpen, Open, -1, Idle)
    case _ => s
  }

  function GoStep(cfg: Config, s: State, t: nat, spurious: bool): State
    requires t < |s.pcs|
  {
    match s.pcs[t]
    case Idle => s
    case Owning(_, _, _) => Own(s, t)
    case SawOpen | TimedOpen(_) | TryHalfOpen | Probing | Claiming(_) | Stamping(_) | Exhausted(_) | TryFallback(_) =>
      AllowStep(cfg, s, t)
    case _ => OutcomeStep(cfg, s, t, spurious)
  }

  function Step(cfg: Config, s: State, a: Action): State {
    match a
    case Tick => s.(clock := s.clock + 1)
    case Begin(t, call) => if t < |s.pcs| && s.pcs[t] == Idle then BeginStep(s, t, call) else s
    case Go(t, spurious) => if t < |s.pcs| then GoStep(cfg, s, t, spurious) else s
  }

  function Exec(cfg: Config, threads: nat, run: seq<Action>): State {
    if run == [] then Initial(threads)
    else Step(cfg, Exec(cfg, threads, run[..|run| - 1]), run[|run| - 1])
  }

  // ----- What every step keeps -----

  predicate Legal(from: Phase, to: Phase) {
    || (from == Closed && to == Open) || (from == Open && to == HalfOpen)
    || (from == HalfOpen && (to == Open || to == Closed))
  }

  ghost predicate LegalHistory(published: seq<Phase>) {
    published != [] && published[0] == Closed &&
    forall i :: 0 <= i < |published| - 1 ==> Legal(published[i], published[i + 1])
  }

  predicate Stable(p: Phase) {
    p == Closed || p == Open || p == HalfOpen
  }

  function Last(s: State): Phase
    requires s.published != []
  {
    s.published[|s.published| - 1]
  }

  /** Exactly one thread owns a transition in progress; it leads from the last published state to its target. */
  ghost predicate Owned(s: State) {
    && (forall t :: 0 <= t < |s.pcs| ==> (s.pcs[t].Owning? <==> t == s.owner))
    && -1 <= s.owner < |s.pcs| && s.published != []
    && (if s.owner == -1 then Stable(s.phase) && Last(s) == s.phase
        else OwnedBy(s, s.pcs[s.owner]))
  }

  ghost predicate OwnedBy(s: State, pc: Pc) {
    && pc.Owning? && s.published != [] && Legal(Last(s), pc.target) && s.phase == Transit(pc.target)
    && |pc.todo| <= |Plan(pc.target)| && pc.todo == Plan(pc.target)[|Plan(pc.target)| - |pc.todo|..]
  }

  /** Completed transitions, and the one in progress once its counter has been stored. */
  function Started(s: State): nat
    requires -1 <= s.owner < |s.pcs| && s.published != []
  {
    |s.published| - 1 + if s.owner >= 0 && s.pcs[s.owner].Owning? && s.pcs[s.owner].todo == [] then 1 else 0
  }

  ghost predicate Counting(cfg: Config, s: State) {
    && s.epoch == (if s.requests < Unsigned(cfg.maxRequests) then s.requests else Unsigned(cfg.maxRequests))
    && (s.phase == HalfOpen ==> s.admitted <= s.epoch)
  }

  ghost predicate Inv(cfg: Config, s: State) {
    Owned(s) && LegalHistory(s.published) && Counting(cfg, s) && s.transitions == Started(s)
  }

  /** A step that moves one thread among places where it owns nothing. */
  ghost predicate Quiet(s: State, s': State, t: nat)
    requires t < |s.pcs| == |s'.pcs|
  {
    && !s.pcs[t].Owning? && !s'.pcs[t].Owning? && s'.pcs == s.pcs[t := s'.pcs[t]]
    && s'.phase == s.phase && s'.published == s.published && s'.owner == s.owner && s'.transitions == s.transitions
  }

  predicate SameProbes(s: State, s': State) {
    s'.requests == s.requests && s'.epoch == s.epoch && s'.admitted == s.admitted
  }

  lemma QuietKeeps(cfg: Config, s: State, s': State, t: nat)
    requires Inv(cfg, s) && |s'.pcs| == |s.pcs| && t < |s.pcs| && Quiet(s, s', t)
    requires SameProbes(s, s') || Counting(cfg, s')
    ensures Inv(cfg, s')
  {
  }

  lemma SeizedKeeps(cfg: Config, s: State, s': State, t: nat, target: Phase, now: int)
    requires Inv(cfg, s) && t < |s.pcs| && Legal(s.phase, target)
    requires s' == At(s, t, Owning(target, Plan(target), now)).(phase := Transit(target), owner := t)
    ensures Inv(cfg, s')
  {
    assert s.owner == -1 && Last(s') == s.phase;
    assert OwnedBy(s', s'.pcs[t]);
  }

  lemma SeizeKeeps(cfg: Config, s: State, t: nat, from: Phase, target: Phase, now: int, failed: Pc)
    requires Inv(cfg, s) && t < |s.pcs| && !s.pcs[t].Owning? && !failed.Owning? && Legal(from, target)
    ensures Inv(cfg, Seize(s, t, from, target, now, failed))
  {
    var s' := Seize(s, t, from, target, now, failed);
    if s.phase == from {
      SeizedKeeps(cfg, s, s', t, target, now);
    } else {
      QuietKeeps(cfg, s, s', t);
    }
  }

  lemma ClaimKeeps(cfg: Config, s: State, t: nat, now: nat)
    requires Inv(cfg, s) && t < |s.pcs| && !s.pcs[t].Owning?
    ensures Inv(cfg, Claim(cfg, s, t, now))
  {
    QuietKeeps(cfg, s, Claim(cfg, s, t, now), t);
  }

  lemma AllowQuiet(cfg: Config, s: State, t: nat)
    requires t < |s.pcs| && !s.pcs[t].Owning?
    requires !s.pcs[t].TryHalfOpen? && !s.pcs[t].TryFallback? && !s.pcs[t].Claiming?
    ensures var s' := AllowStep(cfg, s, t); |s'.pcs| == |s.pcs| && Quiet(s, s', t) && SameProbes(s, s')
  {
  }

  lemma AllowKeeps(cfg: Config, s: State, t: nat)
    requires Inv(cfg, s) && t < |s.pcs| && !s.pcs[t].Owning?
    ensures Inv(cfg, AllowStep(cfg, s, t))
  {
    if s.pcs[t].TryHalfOpen? {
      SeizeKeeps(cfg, s, t, Open, HalfOpen, -1, if s.phase == HalfOpen then Probing else Idle);
    } else if s.pcs[t].TryFallback? {
      SeizeKeeps(cfg, s, t, HalfOpen, Open, s.pcs[t].now, Idle);
    } else if s.pcs[t].Claiming? {
      ClaimKeeps(cfg, s, t, s.pcs[t].now);
    } else {
      AllowQuiet(cfg, s, t);
      QuietKeeps(cfg, s, AllowStep(cfg, s, t), t);
    }
  }

  lemma OutcomeQuiet(cfg: Config, s: State, t: nat, spurious: bool)
    requires t < |s.pcs| && !s.pcs[t].Owning? && !s.pcs[t].TryTrip? && !s.pcs[t].TryClose? && !s.pcs[t].TryReopen?
    ensures var s' := OutcomeStep(cfg, s, t, spurious); |s'.pcs| == |s.pcs| && Quiet(s, s', t) && SameProbes(s, s')
  {
  }

  lemma OutcomeKeeps(cfg: Config, s: State, t: nat, spurious: bool)
    requires Inv(cfg, s) && t < |s.pcs| && !s.pcs[t].Owning?
    ensures Inv(cfg, OutcomeStep(cfg, s, t, spurious))
  {
    if s.pcs[t].TryTrip? {
      SeizeKeeps(cfg, s, t, Closed, Open, -1, Idle);
    } else if s.pcs[t].TryClose? {
      SeizeKeeps(cfg, s, t, HalfOpen, Closed, -1, Idle);
    } else if s.pcs[t].TryReopen? {
      SeizeKeeps(cfg, s, t, HalfOpen, Open, -1, Idle);
    } else {
      OutcomeQuiet(cfg, s, t, spurious);
      QuietKeeps(cfg, s, OutcomeStep(cfg, s, t, spurious), t);
    }
  }

  lemma PlanTail(target: Phase, todo: seq<Cell>)
    requires 0 < |todo| <= |Plan(target)| && todo == Plan(target)[|Plan(target)| - |todo|..]
    ensures todo[1..] == Plan(target)[|Plan(target)| - |todo[1..]|..]
    ensures todo[0] == Transitions <==> |todo| == 1
  {
    var plan := Plan(target);
    assert todo[0] == plan[|plan| - |todo|];
  }

  /** The owner has stored the next cell of its plan. */
  ghost predicate Stored(s: State, s': State, t: nat)
    requires t < |s.pcs| && s.pcs[t].Owning? && s.pcs[t].todo != []
  {
    var pc := s.pcs[t];
    && s'.pcs == s.pcs[t := pc.(todo := pc.todo[1..])]
    && s'.phase == s.phase && s'.published == s.published && s'.owner == s.owner && s'.admitted == s.admitted
    && s'.transitions == s.transitions + (if |pc.todo| == 1 then 1 else 0)
    && (SameProbes(s, s') || s'.requests == s'.epoch == 0)
  }

  lemma StoreIs(s: State, t: nat)
    requires t < |s.pcs| && OwnedBy(s, s.pcs[t]) && s.pcs[t].todo != [] && !NeedsClock(s.pcs[t])
    ensures Stored(s, Own(s, t), t)
  {
    PlanTail(s.pcs[t].target, s.pcs[t].todo);
  }

  lemma StillOwned(s: State, s': State, t: nat)
    requires t < |s.pcs| && OwnedBy(s, s.pcs[t]) && s.pcs[t].todo != [] && Stored(s, s', t)
    ensures OwnedBy(s', s'.pcs[t]) && s'.phase != HalfOpen
  {
    PlanTail(s.pcs[t].target, s.pcs[t].todo);
  }

  lemma StoredKeeps(cfg: Config, s: State, s': State, t: nat)
    requires Inv(cfg, s) && t < |s.pcs| && s.pcs[t].Owning? && s.pcs[t].todo != [] && Stored(s, s', t)
    ensures Inv(cfg, s')
  {
    assert t == s.owner;
    StillOwned(s, s', t);
  }

  lemma ClockReadKeeps(cfg: Config, s: State, t: nat, stamp: int)
    requires Inv(cfg, s) && t < |s.pcs| && s.pcs[t].Owning?
    ensures Inv(cfg, At(s, t, s.pcs[t].(stamp := stamp)))
  {
    var s' := At(s, t, s.pcs[t].(stamp := stamp));
    assert t == s.owner && OwnedBy(s, s.pcs[t]);
    assert OwnedBy(s', s'.pcs[t]);
  }

  lemma PublishKeeps(cfg: Config, s: State, t: nat)
    requires Inv(cfg, s) && t < |s.pcs| && s.pcs[t].Owning? && s.pcs[t].todo == []
    ensures Inv(cfg, Own(s, t))
  {
    assert t == s.owner && OwnedBy(s, s.pcs[t]);
    var s' := Own(s, t);
    assert forall i :: 0 <= i < |s.published| ==> s'.published[i] == s.published[i];
  }

  lemma BeginQuiet(s: State, t: nat, call: Call)
    requires t < |s.pcs| && s.pcs[t] == Idle
    ensures var s' := BeginStep(s, t, call); |s'.pcs| == |s.pcs| && Quiet(s, s', t) && SameProbes(s, s')
  {
  }

  lemma TickKeeps(cfg: Config, s: State, clock: nat)
    requires Inv(cfg, s)
    ensures Inv(cfg, s.(clock := clock))
  {
  }

  lemma StepKeeps(cfg: Config, s: State, a: Action)
    requires Inv(cfg, s)
    ensures Inv(cfg, Step(cfg, s, a))
  {
    match a
    case Tick => TickKeeps(cfg, s, s.clock + 1);
    case Begin(t, call) =>
      if t < |s.pcs| && s.pcs[t] == Idle {
        BeginQuiet(s, t, call);
        QuietKeeps(cfg, s, BeginStep(s, t, call), t);
      }
    case Go(t, spurious) =>
      if t < |s.pcs| {
        GoKeeps(cfg, s, t, spurious);
      }
  }

  lemma OwnKeeps(cfg: Config, s: State, t: nat)
    requires Inv(cfg, s) && t < |s.pcs| && s.pcs[t].Owning?
    ensures Inv(cfg, Own(s, t))
  {
    if NeedsClock(s.pcs[t]) {
      ClockReadKeeps(cfg, s, t, s.clock);
    } else if s.pcs[t].todo == [] {
      PublishKeeps(cfg, s, t);
    } else {
      StoreIs(s, t);
      StoredKeeps(cfg, s, Own(s, t), t);
    }
  }

  lemma GoKeeps(cfg: Config, s: State, t: nat, spurious: bool)
    requires Inv(cfg, s) && t < |s.pcs|
    ensures Inv(cfg, GoStep(cfg, s, t, spurious))
  {
    if s.pcs[t].Owning? {
      OwnKeeps(cfg, s, t);
    } else {
      AllowKeeps(cfg, s, t);
      OutcomeKeeps(cfg, s, t, spurious);
    }
  }

  lemma {:induction false} ExecInv(cfg: Config, threads: nat, run: seq<Action>)
    ensures Inv(cfg, Exec(cfg, threads, run))
  {
    if run != [] {
      ExecInv(cfg, threads, run[..|run| - 1]);
      StepKeeps(cfg, Exec(cfg, threads, run[..|run| - 1]), run[|run| - 1]);
    }
  }

  // ----- The theorems -----

  /** In every interleaving the published states follow the breaker's diagram and are counted exactly. */
  lemma OnlyLegalTransitions(cfg: Config, threads: nat, run: seq<Action>)
    ensures var s := Exec(cfg, threads, run);
      LegalHistory(s.published) && (s.owner == -1 ==> s.transitions == |s.published| - 1)
  {
    ExecInv(cfg, threads, run);
  }

  /** A transition in progress has exactly one owner, and no thread owns one otherwise. */
  lemma OneOwner(cfg: Config, threads: nat, run: seq<Action>, t: nat, u: nat)
    requires t < |Exec(cfg, threads, run).pcs| && u < |Exec(cfg, threads, run).pcs|
    ensures var s := Exec(cfg, threads, run);
      && (s.pcs[t].Owning? && s.pcs[u].Owning? ==> t == u)
      && (Stable(s.phase) ==> !s.pcs[t].Owning?)
      && (!Stable(s.phase) ==> 0 <= s.owner < |s.pcs| && s.pcs[s.owner].Owning?)
  {
    ExecInv(cfg, threads, run);
  }

  /** Between publishing HalfOpen and leaving it no more probes are admitted than the configured number. */
  lemma ProbesBounded(cfg: Config, threads: nat, run: seq<Action>)
    ensures var s := Exec(cfg, threads, run);
      s.epoch <= Unsigned(cfg.maxRequests) && (s.phase == HalfOpen ==> s.admitted <= Unsigned(cfg.maxRequests))
  {
    ExecInv(cfg, threads, run);
  }
}
