/**
 The request slots of an upstream among concurrent callers: every load, exchange and decrement of the counter is one
 step of one of any number of threads, and a weak exchange may fail for no reason.
 */
module RequestSlots {

  datatype Pc = Outside | Loaded(current: int) | Holding

  datatype Action = Acquire(t: nat) | Exchange(t: nat, spurious: bool) | Release(t: nat)

  datatype State = State(active: int, pcs: seq<Pc>)

  function Initial(threads: nat): State {
    State(0, seq(threads, i => Outside))
  }

  function At(s: State, t: nat, pc: Pc): State
    requires t < |s.pcs|
  {
    s.(pcs := s.pcs[t := pc])
  }

  /** Without a limit a caller just counts itself in; with one it first looks how many there are. */
  function Enter(limit: nat, s: State, t: nat): State
    requires t < |s.pcs|
  {
    if limit == 0 then At(s, t, Holding).(active := s.active + 1) else At(s, t, Loaded(s.active))
  }

  /** A full house sends the caller away; a failed exchange leaves it with the number it found instead. */
  function TryEnter(limit: nat, s: State, t: nat, spurious: bool): State
    requires t < |s.pcs| && s.pcs[t].Loaded?
  {
    var current := s.pcs[t].current;
    if current >= limit then At(s, t, Outside)
    else if s.active == current && !spurious then At(s, t, Holding).(active := s.active + 1)
    else At(s, t, Loaded(s.active))
  }

  function Step(limit: nat, s: State, a: Action): State {
    match a
    case Acquire(t) => if t < |s.pcs| && s.pcs[t] == Outside then Enter(limit, s, t) else s
    case Exchange(t, spurious) => if t < |s.pcs| && s.pcs[t].Loaded? then TryEnter(limit, s, t, spurious) else s
    case Release(t) =>
      if t < |s.pcs| && s.pcs[t] == Holding then At(s, t, Outside).(active := s.active - 1) else s
  }

  function Holders(pcs: seq<Pc>): nat {
    if pcs == [] then 0 else Holders(pcs[..|pcs| - 1]) + if pcs[|pcs| - 1] == Holding then 1 else 0
  }

  lemma {:induction false} HoldersMove(pcs: seq<Pc>, t: nat, pc: Pc)
    requires t < |pcs|
    ensures Holders(pcs[t := pc]) ==
      Holders(pcs) + (if pc == Holding then 1 else 0) - (if pcs[t] == Holding then 1 else 0)
  {
    var n := |pcs| - 1;
    if t < n {
      HoldersMove(pcs[..n], t, pc);
      assert pcs[t := pc][..n] == pcs[..n][t := pc];
    } else {
      assert pcs[t := pc][..n] == pcs[..n];
    }
  }

  lemma {:induction false} NobodyHolds(n: nat)
    ensures Holders(seq(n, i => Outside)) == 0
  {
    if n > 0 {
      NobodyHolds(n - 1);
      assert seq(n, i => Outside)[..n - 1] == seq(n - 1, i => Outside);
    }
  }

  /** The counter is the number of holders and never exceeds the limit, and nobody has seen it do so. */
  ghost predicate Inv(limit: nat, s: State) {
    && s.active == Holders(s.pcs) && (limit != 0 ==> s.active <= limit)
    && forall t :: 0 <= t < |s.pcs| && s.pcs[t].Loaded? ==> limit != 0 && s.pcs[t].current <= limit
  }

  lemma StepKeeps(limit: nat, s: State, a: Action)
    requires Inv(limit, s)
    ensures Inv(limit, Step(limit, s, a)) && |Step(limit, s, a).pcs| == |s.pcs|
  {
    if a.t < |s.pcs| {
      HoldersMove(s.pcs, a.t, Step(limit, s, a).pcs[a.t]);
    }
  }

  function Exec(limit: nat, threads: nat, run: seq<Action>): State {
    if run == [] then Initial(threads)
    else Step(limit, Exec(limit, threads, run[..|run| - 1]), run[|run| - 1])
  }

  lemma {:induction false} ExecInv(limit: nat, threads: nat, run: seq<Action>)
    ensures Inv(limit, Exec(limit, threads, run)) && |Exec(limit, threads, run).pcs| == threads
  {
    if run == [] {
      NobodyHolds(threads);
    } else {
      ExecInv(limit, threads, run[..|run| - 1]);
      StepKeeps(limit, Exec(limit, threads, run[..|run| - 1]), run[|run| - 1]);
    }
  }

  /** In every interleaving the counter is exactly the number of callers inside, and a limit is never exceeded. */
  lemma SlotsExact(limit: nat, threads: nat, run: seq<Action>)
    ensures var s := Exec(limit, threads, run); s.active == Holders(s.pcs) && (limit != 0 ==> Holders(s.pcs) <= limit)
  {
    ExecInv(limit, threads, run);
  }

  /** A caller is sent away only with the limit itself in its hands: all slots were taken when it last looked. */
  lemma RefusedWhenFull(limit: nat, threads: nat, run: seq<Action>, t: nat, spurious: bool)
    requires var s := Exec(limit, threads, run);
      t < |s.pcs| && s.pcs[t].Loaded? && Step(limit, s, Exchange(t, spurious)).pcs[t] == Outside
    ensures limit != 0 && Exec(limit, threads, run).pcs[t].current == limit
  {
    ExecInv(limit, threads, run);
  }

  /** And what it looks at is the number of callers inside at that moment. */
  lemma LoadedTruly(limit: nat, threads: nat, run: seq<Action>, a: Action, t: nat)
    requires var s := Exec(limit, threads, run);
      t < |s.pcs| && Step(limit, s, a).pcs[t].Loaded? && Step(limit, s, a).pcs[t] != s.pcs[t]
    ensures var s := Exec(limit, threads, run); Step(limit, s, a).pcs[t].current == Holders(s.pcs)
  {
    ExecInv(limit, threads, run);
  }

  /** A caller that nobody interrupts is let in exactly if a slot is free. */
  lemma LoneCaller(limit: nat, s: State, t: nat)
    requires t < |s.pcs| && s.pcs[t] == Outside
    ensures Step(limit, Step(limit, s, Acquire(t)), Exchange(t, false)) ==
      if limit == 0 || s.active < limit then At(s, t, Holding).(active := s.active + 1) else s
  {
    assert s.pcs[t := Outside] == s.pcs;
  }
}
