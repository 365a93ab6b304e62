/** Smooth weighted round robin: the running weights, and how often each peer is picked. */
module SmoothRoundRobin {

  import opened Arithmetic

  /** What one selection sees of the peers: which are available, and their effective weights. */
  datatype Round = Round(available: seq<bool>, weights: seq<int>)

  predicate RoundOf(round: Round, n: nat) {
    |round.available| == |round.weights| == n
  }

  function Sum(s: seq<int>): int {
    if s == [] then 0 else Sum(s[..|s| - 1]) + s[|s| - 1]
  }

  /** What each peer brings to the selection. */
  function Credits(round: Round): (ws: seq<int>)
    requires RoundOf(round, |round.weights|)
    ensures |ws| == |round.weights|
    ensures forall i :: 0 <= i < |ws| ==> ws[i] >= 0 && (!round.available[i] ==> ws[i] == 0)
  {
    seq(|round.weights|, i requires 0 <= i < |round.weights| =>
      if round.available[i] && round.weights[i] > 0 then round.weights[i] else 0)
  }

  function Plus(a: seq<int>, b: seq<int>): (c: seq<int>)
    requires |a| == |b|
    ensures |c| == |a| && forall i :: 0 <= i < |c| ==> c[i] == a[i] + b[i]
  {
    seq(|a|, i requires 0 <= i < |a| => a[i] + b[i])
  }

  /** Of the first `k` peers, the first available one with the greatest weight; -1 if none is available. */
  function Best(u: seq<int>, available: seq<bool>, k: nat): (r: int)
    requires |u| == |available| && k <= |u|
    ensures -1 <= r < k
    ensures r >= 0 ==> available[r] && forall i :: 0 <= i < k && available[i] ==>
      u[i] <= u[r] && (i < r ==> u[i] < u[r])
    ensures r == -1 ==> forall i :: 0 <= i < k ==> !available[i]
  {
    if k == 0 then -1
    else
      var r := Best(u, available, k - 1);
      if available[k - 1] && (r == -1 || u[k - 1] > u[r]) then k - 1 else r
  }

  function Pick(cw: seq<int>, round: Round): (r: int)
    requires RoundOf(round, |cw|)
    ensures -1 <= r < |cw|
  {
    if Sum(Credits(round)) <= 0 then -1 else Best(Plus(cw, Credits(round)), round.available, |cw|)
  }

  function Next(cw: seq<int>, round: Round): (r: seq<int>)
    requires RoundOf(round, |cw|)
    ensures |r| == |cw|
  {
    var p := Pick(cw, round);
    if p == -1 then cw else Charged(Plus(cw, Credits(round)), p, Sum(Credits(round)))
  }

  function Charged(u: seq<int>, p: nat, t: int): (r: seq<int>)
    requires p < |u|
    ensures |r| == |u|
  {
    u[p := u[p] - t]
  }

  /** One selection: everybody is credited, the greatest is picked and charged the total. */
  ghost predicate Turn(cw: seq<int>, ws: seq<int>, available: seq<bool>, p: int, next: seq<int>) {
    && |cw| == |ws| == |available| == |next| && 0 <= p < |cw| && available[p]
    && (forall i :: 0 <= i < |cw| ==> next[i] == cw[i] + ws[i] - if i == p then Sum(ws) else 0)
    && (forall i :: 0 <= i < |cw| && available[i] ==> cw[i] + ws[i] <= cw[p] + ws[p])
  }

  lemma {:induction false} SumPositive(s: seq<int>)
    requires Sum(s) > 0
    ensures exists i :: 0 <= i < |s| && s[i] > 0
  {
    if s[|s| - 1] <= 0 {
      SumPositive(s[..|s| - 1]);
    }
  }

  lemma SelectionIsTurn(cw: seq<int>, round: Round)
    requires RoundOf(round, |cw|) && Sum(Credits(round)) > 0
    ensures Turn(cw, Credits(round), round.available, Pick(cw, round), Next(cw, round))
  {
    SumPositive(Credits(round));
  }

  // ----- Conservation -----

  lemma {:induction false} PlusSum(a: seq<int>, b: seq<int>, c: seq<int>)
    requires |a| == |b| == |c| && forall i :: 0 <= i < |a| ==> c[i] == a[i] + b[i]
    ensures Sum(c) == Sum(a) + Sum(b)
  {
    if a != [] {
      var n := |a| - 1;
      PlusSum(a[..n], b[..n], c[..n]);
    }
  }

  lemma {:induction false} ChargedSum(u: seq<int>, p: nat, t: int, s: seq<int>)
    requires p < |u| == |s| && forall i :: 0 <= i < |u| ==> s[i] == u[i] - if i == p then t else 0
    ensures Sum(s) == Sum(u) - t
  {
    var n := |u| - 1;
    if p == n {
      assert s[..n] == u[..n];
    } else {
      ChargedSum(u[..n], p, t, s[..n]);
    }
  }

  lemma TurnSum(cw: seq<int>, ws: seq<int>, available: seq<bool>, p: int, next: seq<int>)
    requires Turn(cw, ws, available, p, next)
    ensures Sum(next) == Sum(cw)
  {
    PlusSum(cw, ws, Plus(cw, ws));
    ChargedSum(Plus(cw, ws), p, Sum(ws), next);
  }

  lemma NextSum(cw: seq<int>, round: Round)
    requires RoundOf(round, |cw|)
    ensures Sum(Next(cw, round)) == Sum(cw)
  {
    if Sum(Credits(round)) > 0 {
      SelectionIsTurn(cw, round);
      TurnSum(cw, Credits(round), round.available, Pick(cw, round), Next(cw, round));
    }
  }

  function Zeros(n: nat): (s: seq<int>)
    ensures |s| == n && forall i :: 0 <= i < n ==> s[i] == 0
  {
    seq(n, i => 0)
  }

  function Exec(n: nat, run: seq<Round>): (cw: seq<int>)
    requires forall i :: 0 <= i < |run| ==> RoundOf(run[i], n)
    ensures |cw| == n
  {
    if run == [] then Zeros(n) else Next(Exec(n, run[..|run| - 1]), run[|run| - 1])
  }

  lemma {:induction false} ZerosSum(s: seq<int>)
    requires forall i :: 0 <= i < |s| ==> s[i] == 0
    ensures Sum(s) == 0
  {
    if s != [] {
      ZerosSum(s[..|s| - 1]);
    }
  }

  /** Whatever happens to weights and availability, the running weights always add up to zero. */
  lemma {:induction false} AlwaysBalanced(n: nat, run: seq<Round>)
    requires forall i :: 0 <= i < |run| ==> RoundOf(run[i], n)
    ensures Sum(Exec(n, run)) == 0
  {
    if run == [] {
      ZerosSum(Zeros(n));
    } else {
      AlwaysBalanced(n, run[..|run| - 1]);
      NextSum(Exec(n, run[..|run| - 1]), run[|run| - 1]);
    }
  }

  // ----- Selections with fixed weights -----

  /** Turns in a row from all zeros: the running weights before and after each, and the peers picked. */
  ghost predicate History(ws: seq<int>, available: seq<bool>, cws: seq<seq<int>>, ps: seq<int>) {
    && |cws| == |ps| + 1 && |ws| == |available| && cws[0] == Zeros(|ws|)
    && (forall i :: 0 <= i < |ws| ==> ws[i] >= 0 && (!available[i] ==> ws[i] == 0)) && Sum(ws) > 0
    && forall k :: 0 <= k < |ps| ==> Turn(cws[k], ws, available, ps[k], cws[k + 1])
  }

  lemma HistoryExtends(
      ws: seq<int>, available: seq<bool>, cws: seq<seq<int>>, ps: seq<int>, p: int, next: seq<int>)
    requires History(ws, available, cws, ps) && Turn(cws[|ps|], ws, available, p, next)
    ensures History(ws, available, cws + [next], ps + [p])
  {
    var cws', ps' := cws + [next], ps + [p];
    forall k | 0 <= k < |ps'| ensures Turn(cws'[k], ws, available, ps'[k], cws'[k + 1]) {
      if k < |ps| {
        assert Turn(cws[k], ws, available, ps[k], cws[k + 1]);
      }
    }
  }

  /** The states and the picks are those of selecting with `round` again and again. */
  ghost predicate Selections(round: Round, cws: seq<seq<int>>, ps: seq<int>) {
    && |cws| == |ps| + 1 && (forall k :: 0 <= k < |cws| ==> RoundOf(round, |cws[k]|))
    && forall k :: 0 <= k < |ps| ==> ps[k] == Pick(cws[k], round) && cws[k + 1] == Next(cws[k], round)
  }

  lemma SelectionsAppend(round: Round, cws: seq<seq<int>>, ps: seq<int>, p: int, next: seq<int>)
    requires Selections(round, cws, ps) && p == Pick(cws[|ps|], round) && next == Next(cws[|ps|], round)
    ensures Selections(round, cws + [next], ps + [p])
  {
    var cws', ps' := cws + [next], ps + [p];
    forall k | 0 <= k < |ps'| ensures ps'[k] == Pick(cws'[k], round) && cws'[k + 1] == Next(cws'[k], round) {
      if k < |ps| {
        assert cws'[k] == cws[k] && cws'[k + 1] == cws[k + 1];
      }
    }
  }

  /** Selecting again and again with the same peers makes such turns. */
  lemma {:induction false} RepeatedSelection(round: Round, k: nat) returns (cws: seq<seq<int>>, ps: seq<int>)
    requires RoundOf(round, |round.weights|) && Sum(Credits(round)) > 0
    ensures History(Credits(round), round.available, cws, ps) && |ps| == k && Selections(round, cws, ps)
  {
    if k == 0 {
      cws, ps := [Zeros(|round.weights|)], [];
    } else {
      cws, ps := RepeatedSelection(round, k - 1);
      var cw := cws[k - 1];
      var p, next := Pick(cw, round), Next(cw, round);
      SelectionIsTurn(cw, round);
      SelectionsAppend(round, cws, ps, p, next);
      HistoryExtends(Credits(round), round.available, cws, ps, p, next);
      cws, ps := cws + [next], ps + [p];
    }
  }

  function Count(ps: seq<int>, i: int): nat {
    if ps == [] then 0 else Count(ps[..|ps| - 1], i) + if ps[|ps| - 1] == i then 1 else 0
  }

  ghost predicate Shorter(ws: seq<int>, available: seq<bool>, cws: seq<seq<int>>, ps: seq<int>) {
    |ps| > 0 && |cws| > 0 && History(ws, available, cws[..|cws| - 1], ps[..|ps| - 1])
  }

  lemma HistoryShorter(ws: seq<int>, available: seq<bool>, cws: seq<seq<int>>, ps: seq<int>)
    requires History(ws, available, cws, ps) && ps != []
    ensures Shorter(ws, available, cws, ps)
  {
  }

  lemma OwedStep(a: int, k: int, w: int, c: int, t: int, hit: bool)
    requires a == k * w - c * t
    ensures a + w - (if hit then t else 0) == (k + 1) * w - (c + if hit then 1 else 0) * t
  {
  }

  /** The running weight is what the peer was owed less what it was given. */
  lemma {:induction false} Owed(ws: seq<int>, available: seq<bool>, cws: seq<seq<int>>, ps: seq<int>, i: nat)
    requires History(ws, available, cws, ps) && i < |ws|
    ensures |cws[|ps|]| == |ws| && cws[|ps|][i] == |ps| * ws[i] - Count(ps, i) * Sum(ws)
    decreases |ps|
  {
    if ps != [] {
      var k := |ps| - 1;
      HistoryShorter(ws, available, cws, ps);
      Owed(ws, available, cws[..k + 1], ps[..k], i);
      assert Turn(cws[k], ws, available, ps[k], cws[k + 1]);
      OwedStep(cws[k][i], k, ws[i], Count(ps[..k], i), Sum(ws), ps[k] == i);
    }
  }

  lemma {:induction false} SumAtMost(s: seq<int>)
    requires forall i :: 0 <= i < |s| ==> s[i] <= 0
    ensures Sum(s) <= 0
  {
    if s != [] {
      SumAtMost(s[..|s| - 1]);
    }
  }

  /**
   The running weights of peers that are not available are zero, all add up to zero, and none is a whole total
   behind.
   */
  ghost predicate Steady(ws: seq<int>, available: seq<bool>, cw: seq<int>) {
    && |cw| == |ws| == |available| && Sum(cw) == 0
    && forall i :: 0 <= i < |cw| ==> cw[i] > -Sum(ws) && (!available[i] ==> cw[i] == 0)
  }

  lemma PickPositive(cw: seq<int>, ws: seq<int>, available: seq<bool>, p: int, next: seq<int>)
    requires Turn(cw, ws, available, p, next) && Sum(ws) > 0 && Steady(ws, available, cw)
    requires forall i :: 0 <= i < |ws| && !available[i] ==> ws[i] == 0
    ensures cw[p] + ws[p] > 0
  {
    PlusSum(cw, ws, Plus(cw, ws));
    if cw[p] + ws[p] <= 0 {
      SumAtMost(Plus(cw, ws));
    }
  }

  lemma {:induction false} StaysSteady(ws: seq<int>, available: seq<bool>, cws: seq<seq<int>>, ps: seq<int>)
    requires History(ws, available, cws, ps)
    ensures Steady(ws, available, cws[|ps|])
    decreases |ps|
  {
    if ps == [] {
      ZerosSum(Zeros(|ws|));
    } else {
      var k := |ps| - 1;
      HistoryShorter(ws, available, cws, ps);
      StaysSteady(ws, available, cws[..k + 1], ps[..k]);
      assert Turn(cws[k], ws, available, ps[k], cws[k + 1]);
      PickPositive(cws[k], ws, available, ps[k], cws[k + 1]);
      TurnSum(cws[k], ws, available, ps[k], cws[k + 1]);
    }
  }

  /** After any number of selections no peer is a whole turn ahead of its share. */
  lemma NeverAhead(ws: seq<int>, available: seq<bool>, cws: seq<seq<int>>, ps: seq<int>, i: nat)
    requires History(ws, available, cws, ps) && i < |ws|
    ensures Count(ps, i) * Sum(ws) < |ps| * ws[i] + Sum(ws)
  {
    StaysSteady(ws, available, cws, ps);
    Owed(ws, available, cws, ps, i);
  }

  /** How often each of the first `n` peers is picked. */
  function Counts(ps: seq<int>, n: nat): (c: seq<int>)
    ensures |c| == n && forall i :: 0 <= i < n ==> c[i] == Count(ps, i)
  {
    seq(n, i requires 0 <= i < n => Count(ps, i))
  }

  lemma {:induction false} CountsSum(ps: seq<int>, n: nat)
    requires forall k :: 0 <= k < |ps| ==> 0 <= ps[k] < n
    ensures Sum(Counts(ps, n)) == |ps|
    decreases |ps|
  {
    if ps == [] {
      ZerosSum(Counts(ps, n));
    } else {
      var front, p := ps[..|ps| - 1], ps[|ps| - 1];
      CountsSum(front, n);
      ChargedSum(Counts(front, n), p, -1, Counts(ps, n));
    }
  }

  lemma {:induction false} EqualSums(a: seq<int>, b: seq<int>)
    requires |a| == |b| && (forall i :: 0 <= i < |a| ==> a[i] <= b[i])
    ensures Sum(a) <= Sum(b) && (Sum(a) == Sum(b) ==> a == b)
  {
    if a != [] {
      EqualSums(a[..|a| - 1], b[..|b| - 1]);
    }
  }

  lemma AtMostWeight(c: int, w: int, t: int)
    requires t > 0 && c * t < t * w + t
    ensures c <= w
  {
    if c >= w + 1 {
      MulMonotone(w + 1, c, t);
    }
  }

  /** In as many selections as the weights add up to, every peer is picked exactly as often as it weighs. */
  lemma OneCycle(ws: seq<int>, available: seq<bool>, cws: seq<seq<int>>, ps: seq<int>)
    requires History(ws, available, cws, ps) && |ps| == Sum(ws)
    ensures Counts(ps, |ws|) == ws && cws[|ps|] == cws[0]
  {
    var n := |ws|;
    forall i: nat | i < n ensures Count(ps, i) <= ws[i] {
      NeverAhead(ws, available, cws, ps, i);
      AtMostWeight(Count(ps, i), ws[i], Sum(ws));
    }
    forall k | 0 <= k < |ps| ensures 0 <= ps[k] < n {
      assert Turn(cws[k], ws, available, ps[k], cws[k + 1]);
    }
    CountsSum(ps, n);
    EqualSums(Counts(ps, n), ws);
    StaysSteady(ws, available, cws, ps);
    forall i: nat | i < n ensures cws[|ps|][i] == 0 {
      Owed(ws, available, cws, ps, i);
      assert Counts(ps, n)[i] == ws[i];
    }
  }

  // ----- The balancer -----

  class SmoothWeightedRoundRobin {
    const n: nat
    /** Running weights by peer; a peer that has not been looked at yet has none. */
    var current: map<nat, int>

    constructor (n: nat)
      ensures this.n == n && State() == Zeros(n)
    {
      this.n := n;
      current := map[];
    }

    function At(i: nat): int
      reads this
    {
      if i in current then current[i] else 0
    }

    ghost function State(): (cw: seq<int>)
      reads this
      ensures |cw| == n && forall i :: 0 <= i < n ==> cw[i] == At(i)
    {
      seq(n, i requires 0 <= i < n reads this => At(i))
    }

    method TotalWeight(round: Round) returns (total: int)
      requires RoundOf(round, n)
      ensures total == Sum(Credits(round))
    {
      var ws := Credits(round);
      total := 0;
      for i := 0 to n
        invariant total == Sum(ws[..i])
      {
        assert ws[..i + 1][..i] == ws[..i];
        if round.available[i] {
          total := total + if round.weights[i] > 0 then round.weights[i] else 0;
        }
      }
      assert ws[..n] == ws;
    }

    /** Credits every available peer and finds the first with the greatest running weight. */
    method CreditAll(round: Round) returns (best: int)
      requires RoundOf(round, n)
      modifies this
      ensures State() == Plus(old(State()), Credits(round))
      ensures best == Best(Plus(old(State()), Credits(round)), round.available, n)
    {
      ghost var cw, ws := State(), Credits(round);
      ghost var u := Plus(cw, ws);
      best := -1;
      var bestWeight := 0;
      for i := 0 to n
        invariant best == Best(u, round.available, i) && (best >= 0 ==> bestWeight == u[best])
        invariant forall j :: 0 <= j < n ==> At(j) == if j < i then u[j] else cw[j]
      {
        if round.available[i] {
          var weight := if round.weights[i] > 0 then round.weights[i] else 0;
          current := current[i := At(i) + weight];
          if best == -1 || current[i] > bestWeight {
            bestWeight, best := current[i], i;
          }
        }
      }
    }

    /** One selection moves the running weights as the turns above do. */
    method Select(round: Round) returns (best: int)
      requires RoundOf(round, n)
      modifies this
      ensures best == Pick(old(State()), round) && State() == Next(old(State()), round)
    {
      var total := TotalWeight(round);
      if total <= 0 { return -1; }
      SumPositive(Credits(round));
      best := CreditAll(round);
      if best != -1 {
        current := current[best := At(best) - total];
      }
    }
  }
}
