/** Maglev hashing: backends take turns claiming the first free slot of their own preference order. */
module Maglev {

  import opened Arithmetic
  import opened Options
  import opened Primes
  import opened Sequences

  datatype Peer = Peer(name: string, weight: int)

  /** A logical backend: one of the replicas of a peer, with its own walk through the table. */
  datatype Backend = Backend(peer: Peer, offset: nat, skip: nat)

  predicate Fits(b: Backend, m: nat) {
    b.offset < m && 1 <= b.skip < m
  }

  /** The slot that the backend prefers after `j` others. */
  function Slot(b: Backend, j: nat, m: nat): nat
    requires m > 0
  {
    (b.offset + j * b.skip) % m
  }

  // ----- A walk visits every slot once -----

  lemma SameRemainder(x: int, y: int, m: int)
    requires m > 0 && x % m == y % m
    ensures Divides(m, y - x)
  {
    DivMod(x, m);
    DivMod(y, m);
    assert y - x == (y / m - x / m) * m;
    MultipleDivides(y / m - x / m, m);
  }

  lemma Spread(o: int, s: int, i: int, j: int)
    ensures (o + j * s) - (o + i * s) == (j - i) * s
  {
  }

  lemma SlotsDiffer(b: Backend, m: nat, i: nat, j: nat)
    requires Prime(m) && Fits(b, m) && i < j < m
    ensures Slot(b, i, m) != Slot(b, j, m)
  {
    PrimeProduct(m, j - i, b.skip);
    Spread(b.offset, b.skip, i, j);
    var x, y := b.offset + i * b.skip, b.offset + j * b.skip;
    assert !Divides(m, y - x);
    if x % m == y % m {
      SameRemainder(x, y, m);
    }
  }

  /** The first `k` preferences. */
  ghost function Slots(b: Backend, m: nat, k: nat): set<nat>
    requires m > 0
  {
    if k == 0 then {} else Slots(b, m, k - 1) + {Slot(b, k - 1, m)}
  }

  lemma {:induction false} InSlots(b: Backend, m: nat, k: nat, p: nat)
    requires m > 0 && p in Slots(b, m, k)
    ensures exists j: nat :: j < k && Slot(b, j, m) == p
  {
    if p != Slot(b, k - 1, m) {
      InSlots(b, m, k - 1, p);
    }
  }

  lemma {:induction false} SlotsCount(b: Backend, m: nat, k: nat)
    requires Prime(m) && Fits(b, m) && k <= m
    ensures |Slots(b, m, k)| == k && forall p :: p in Slots(b, m, k) ==> p < m
  {
    if k > 0 {
      SlotsCount(b, m, k - 1);
      var p := Slot(b, k - 1, m);
      if p in Slots(b, m, k - 1) {
        InSlots(b, m, k - 1, p);
        var j: nat :| j < k - 1 && Slot(b, j, m) == p;
        SlotsDiffer(b, m, j, k - 1);
      }
    }
  }

  ghost function Below(m: nat): set<nat> {
    if m == 0 then {} else Below(m - 1) + {m - 1}
  }

  lemma {:induction false} BelowIs(m: nat)
    ensures |Below(m)| == m && forall p: nat :: p in Below(m) <==> p < m
  {
    if m > 0 {
      BelowIs(m - 1);
    }
  }

  lemma FullSubset(a: set<nat>, b: set<nat>)
    requires a <= b && |a| == |b|
    ensures a == b
  {
    assert b == (b - a) + a;
    assert |b| == |b - a| + |a|;
    assert b - a == {};
  }

  /** Because the table size is prime, every backend's walk reaches every slot. */
  lemma WalkCovers(b: Backend, m: nat, p: nat)
    requires Prime(m) && Fits(b, m) && p < m
    ensures exists j: nat :: j < m && Slot(b, j, m) == p
  {
    SlotsCount(b, m, m);
    BelowIs(m);
    FullSubset(Slots(b, m, m), Below(m));
    InSlots(b, m, m, p);
  }

  // ----- Turns -----

  /** `pos` is the first slot in the backend's order that is not taken. */
  ghost predicate FirstFree(b: Backend, m: nat, taken: seq<nat>, pos: nat)
    requires m > 0
  {
    exists j: nat :: FreeAt(b, m, taken, pos, j)
  }

  ghost predicate FreeAt(b: Backend, m: nat, taken: seq<nat>, pos: nat, j: nat)
    requires m > 0
  {
    Slot(b, j, m) == pos && pos !in taken && forall i: nat :: i < j ==> Slot(b, i, m) in taken
  }

  /** Turn `t` belongs to backend `t % n`, and it claims the first slot that is free for it. */
  ghost predicate Played(backends: seq<Backend>, m: nat, picks: seq<nat>)
    requires m > 0
  {
    |backends| > 0 &&
    forall t: nat :: t < |picks| ==> picks[t] < m && FirstFree(backends[t % |backends|], m, picks[..t], picks[t])
  }

  /** The rule leaves no choice: it determines the turns, and with them the table. */
  lemma {:induction false} PlayedUnique(backends: seq<Backend>, m: nat, picks: seq<nat>, picks': seq<nat>)
    requires m > 0 && Played(backends, m, picks) && Played(backends, m, picks') && |picks| == |picks'|
    ensures picks == picks'
  {
    if picks != [] {
      var t := |picks| - 1;
      PlayedPrefix(backends, m, picks);
      PlayedPrefix(backends, m, picks');
      PlayedUnique(backends, m, picks[..t], picks'[..t]);
      FirstFreeUnique(backends[t % |backends|], m, picks[..t], picks[t], picks'[t]);
    }
  }

  lemma PlayedPrefix(backends: seq<Backend>, m: nat, picks: seq<nat>)
    requires m > 0 && Played(backends, m, picks) && picks != []
    ensures Played(backends, m, picks[..|picks| - 1])
  {
    var front := picks[..|picks| - 1];
    forall t: nat | t < |front| ensures front[t] < m && FirstFree(backends[t % |backends|], m, front[..t], front[t]) {
      assert front[..t] == picks[..t];
    }
  }

  lemma FirstFreeUnique(b: Backend, m: nat, taken: seq<nat>, pos: nat, pos': nat)
    requires m > 0 && FirstFree(b, m, taken, pos) && FirstFree(b, m, taken, pos')
    ensures pos == pos'
  {
    var j: nat :| FreeAt(b, m, taken, pos, j);
    var j': nat :| FreeAt(b, m, taken, pos', j');
    assert j' <= j;
    assert j <= j';
  }

  lemma PlayedOnce(backends: seq<Backend>, m: nat, picks: seq<nat>)
    requires m > 0 && Played(backends, m, picks)
    ensures NoneTwice(picks)
  {
    forall i, j | 0 <= i < j < |picks| ensures picks[i] != picks[j] {
      assert picks[j] !in picks[..j];
      assert picks[..j][i] == picks[i];
    }
  }

  ghost function Elements(picks: seq<nat>): set<nat> {
    set p | p in picks
  }

  lemma {:induction false} ElementsCount(picks: seq<nat>)
    requires NoneTwice(picks)
    ensures |Elements(picks)| == |picks|
  {
    if picks != [] {
      var front, last := picks[..|picks| - 1], picks[|picks| - 1];
      ElementsCount(front);
      assert picks == front + [last];
      assert Elements(picks) == Elements(front) + {last};
    }
  }

  lemma {:induction false} ElementsBound(picks: seq<nat>)
    ensures |Elements(picks)| <= |picks|
  {
    if picks != [] {
      var front, last := picks[..|picks| - 1], picks[|picks| - 1];
      ElementsBound(front);
      assert picks == front + [last];
      assert Elements(picks) == Elements(front) + {last};
    }
  }

  /** While the table is not full, every backend finds a free slot. */
  lemma SlotLeft(b: Backend, m: nat, picks: seq<nat>) returns (j: nat)
    requires Prime(m) && Fits(b, m) && |picks| < m
    ensures j < m && Slot(b, j, m) !in picks
  {
    BelowIs(m);
    ElementsBound(picks);
    if Below(m) <= Elements(picks) {
      SubsetCount(Below(m), Elements(picks));
    }
    var p :| p in Below(m) && p !in Elements(picks);
    WalkCovers(b, m, p);
    j :| j < m && Slot(b, j, m) == p;
  }

  lemma SubsetCount(a: set<nat>, b: set<nat>)
    requires a <= b
    ensures |a| <= |b|
  {
    assert b == a + (b - a);
  }

  // ----- The table under construction -----

  ghost predicate Filled(backends: seq<Backend>, entries: seq<Option<Peer>>, picks: seq<nat>) {
    && |backends| > 0
    && (forall p: nat :: p < |entries| ==> (entries[p].Some? <==> p in picks))
    && forall t: nat :: t < |picks| ==> picks[t] < |entries| && entries[picks[t]] == Some(backends[t % |backends|].peer)
  }

  /** Every backend has passed over taken slots only. */
  ghost predicate Passed(backends: seq<Backend>, m: nat, next: seq<nat>, picks: seq<nat>)
    requires m > 0
  {
    |next| == |backends| && forall b: nat :: b < |backends| ==> PassedOne(backends[b], m, next[b], picks)
  }

  ghost predicate PassedOne(b: Backend, m: nat, next: nat, picks: seq<nat>)
    requires m > 0
  {
    forall j: nat :: j < next ==> Slot(b, j, m) in picks
  }

  lemma FilledStep(backends: seq<Backend>, entries: seq<Option<Peer>>, picks: seq<nat>, pos: nat)
    requires Filled(backends, entries, picks) && pos < |entries| && pos !in picks
    ensures Filled(backends, entries[pos := Some(backends[|picks| % |backends|].peer)], picks + [pos])
  {
  }

  lemma PassedStep(backends: seq<Backend>, m: nat, next: seq<nat>, picks: seq<nat>, pos: nat, b: nat, j: nat)
    requires m > 0 && Passed(backends, m, next, picks) && b < |backends|
    requires PassedOne(backends[b], m, j, picks) && Slot(backends[b], j, m) == pos
    ensures Passed(backends, m, next[b := j + 1], picks + [pos])
  {
    forall c: nat | c < |backends| ensures PassedOne(backends[c], m, next[b := j + 1][c], picks + [pos]) {
      assert PassedOne(backends[c], m, next[c], picks);
    }
  }

  lemma PlayedStep(backends: seq<Backend>, m: nat, picks: seq<nat>, pos: nat, j: nat)
    requires m > 0 && Played(backends, m, picks) && pos < m && FreeAt(backends[|picks| % |backends|], m, picks, pos, j)
    ensures Played(backends, m, picks + [pos])
  {
    var picks' := picks + [pos];
    forall t: nat | t < |picks'|
      ensures picks'[t] < m && FirstFree(backends[t % |backends|], m, picks'[..t], picks'[t])
    {
      assert picks'[..t] == picks[..t];
      if t == |picks| {
        assert picks[..t] == picks;
      }
    }
  }

  /** The walk from where the backend last stopped ends at the first slot that is free for it. */
  method Probe(b: Backend, m: nat, entries: array<Option<Peer>>, start: nat, ghost picks: seq<nat>)
    returns (pos: nat, next: nat)
    requires Prime(m) && Fits(b, m) && entries.Length == m && |picks| < m && PassedOne(b, m, start, picks)
    requires forall p: nat :: p < m ==> (entries[p].Some? <==> p in picks)
    ensures next >= 1 && pos < m && FreeAt(b, m, picks, pos, next - 1)
  {
    ghost var free := SlotLeft(b, m, picks);
    pos := Slot(b, start, m);
    next := start + 1;
    while entries[pos] != None
      invariant pos < m && next >= 1 && pos == Slot(b, next - 1, m) && PassedOne(b, m, next - 1, picks)
      invariant next - 1 <= free
      decreases free - next
    {
      pos := Slot(b, next, m);
      next := next + 1;
    }
  }

  ghost predicate Building(
      backends: seq<Backend>, m: nat, entries: seq<Option<Peer>>, next: seq<nat>, picks: seq<nat>) {
    && m > 0 && |entries| == m && |picks| <= m
    && Played(backends, m, picks) && Filled(backends, entries, picks) && Passed(backends, m, next, picks)
  }

  method Turn(backends: seq<Backend>, m: nat, entries: array<Option<Peer>>, next: array<nat>, i: nat,
        ghost picks: seq<nat>)
    returns (pos: nat)
    requires Prime(m) && forall b :: b in backends ==> Fits(b, m)
    requires Building(backends, m, entries[..], next[..], picks) && |picks| < m && i == |picks| % |backends|
    modifies entries, next
    ensures Building(backends, m, entries[..], next[..], picks + [pos])
  {
    var after;
    assert entries[..] == old(entries[..]);
    pos, after := Probe(backends[i], m, entries, next[i], picks);
    FilledStep(backends, entries[..], picks, pos);
    PassedStep(backends, m, next[..], picks, pos, i, after - 1);
    PlayedStep(backends, m, picks, pos, after - 1);
    next[i] := after;
    entries[pos] := Some(backends[i].peer);
  }

  /** The finished table follows the turns, slot by slot. */
  method BuildTable(backends: seq<Backend>, m: nat) returns (entries: array<Option<Peer>>, ghost picks: seq<nat>)
    requires Prime(m) && forall b :: b in backends ==> Fits(b, m)
    ensures backends == [] ==> entries.Length == 0
    ensures backends != [] ==> Finished(backends, m, entries[..], picks)
  {
    picks := [];
    if backends == [] {
      entries := new Option<Peer>[0];
      return;
    }
    var n := |backends|;
    entries := new Option<Peer>[m](_ => None);
    var next := new nat[n](_ => 0);
    var filled := 0;
    while filled < m
      invariant filled == |picks| && (filled == m || filled % n == 0)
      invariant Building(backends, m, entries[..], next[..], picks)
      decreases m - filled
    {
      ghost var round := filled / n;
      DivMod(filled, n);
      var i := 0;
      while i < n && filled < m
        invariant 0 <= i <= n && filled == |picks| == round * n + i
        invariant Building(backends, m, entries[..], next[..], picks)
        decreases n - i
      {
        ModUnique(filled, round, n, i);
        var pos := Turn(backends, m, entries, next, i, picks);
        picks := picks + [pos];
        filled := filled + 1;
        i := i + 1;
      }
      if filled < m {
        ModUnique(filled, round + 1, n, 0);
      }
    }
  }

  // ----- The finished table -----

  /** All turns have been played, and the table holds the peer of whoever claimed a slot. */
  ghost predicate Finished(backends: seq<Backend>, m: nat, entries: seq<Option<Peer>>, picks: seq<nat>) {
    && m > 0 && |entries| == |picks| == m && Played(backends, m, picks) && Filled(backends, entries, picks)
  }

  /** Every slot is taken in some turn, so a lookup never comes back empty. */
  lemma NoSlotEmpty(backends: seq<Backend>, m: nat, entries: seq<Option<Peer>>, picks: seq<nat>, p: nat)
    requires Finished(backends, m, entries, picks) && p < m
    ensures p in picks && entries[p].Some? && exists b :: b in backends && entries[p].value == b.peer
  {
    PlayedOnce(backends, m, picks);
    ElementsCount(picks);
    BelowIs(m);
    FullSubset(Elements(picks), Below(m));
    assert p in Elements(picks);
    var t: nat :| t < |picks| && picks[t] == p;
    assert backends[t % |backends|] in backends;
  }

  /** The slots that logical backend `b` of `n` claims in the turns `picks`. */
  ghost function Claimed(picks: seq<nat>, n: nat, b: nat): set<nat>
    requires n > 0
  {
    if picks == [] then {}
    else
      var t := |picks| - 1;
      Claimed(picks[..t], n, b) + if t % n == b then {picks[t]} else {}
  }

  function Share(m: nat, n: nat, b: nat): nat
    requires n > 0
  {
    m / n + if b < m % n then 1 else 0
  }

  lemma ShareStep(t: nat, n: nat, b: nat)
    requires b < n
    ensures Share(t + 1, n, b) == Share(t, n, b) + if t % n == b then 1 else 0
  {
    DivMod(t, n);
    if t % n + 1 < n {
      ModUnique(t + 1, t / n, n, t % n + 1);
    } else {
      ModUnique(t + 1, t / n + 1, n, 0);
    }
  }

  lemma {:induction false} ClaimedIn(picks: seq<nat>, n: nat, b: nat)
    requires n > 0
    ensures forall p :: p in Claimed(picks, n, b) ==> p in picks
  {
    if picks != [] {
      ClaimedIn(picks[..|picks| - 1], n, b);
    }
  }

  /**
   Backend `b` of `n` owns `m / n` slots, plus one if it is among the first `m % n`: no two logical backends differ by
   more than one slot.
   */
  lemma {:induction false} EvenShares(picks: seq<nat>, n: nat, b: nat)
    requires NoneTwice(picks) && b < n
    ensures |Claimed(picks, n, b)| == Share(|picks|, n, b)
  {
    if picks == [] {
      ModUnique(0, 0, n, 0);
    } else {
      var t := |picks| - 1;
      EvenShares(picks[..t], n, b);
      ShareStep(t, n, b);
      ClaimedIn(picks[..t], n, b);
    }
  }

  lemma {:induction false} ClaimedTurn(picks: seq<nat>, n: nat, b: nat, p: nat) returns (t: nat)
    requires n > 0 && p in Claimed(picks, n, b)
    ensures t < |picks| && picks[t] == p && t % n == b
  {
    t := |picks| - 1;
    if !(t % n == b && picks[t] == p) {
      t := ClaimedTurn(picks[..t], n, b, p);
    }
  }

  /**
   In the finished table any two logical backends own equally many slots, give or take one, with their peers in
   them.
   */
  lemma BalancedTable(backends: seq<Backend>, m: nat, entries: seq<Option<Peer>>, picks: seq<nat>, b: nat, c: nat)
    requires Finished(backends, m, entries, picks) && b < |backends| && c < |backends|
    ensures var n := |backends|; |Claimed(picks, n, b)| <= |Claimed(picks, n, c)| + 1
    ensures forall p :: p in Claimed(picks, |backends|, b) ==> p < m && entries[p] == Some(backends[b].peer)
  {
    var n := |backends|;
    PlayedOnce(backends, m, picks);
    EvenShares(picks, n, b);
    EvenShares(picks, n, c);
    forall p | p in Claimed(picks, n, b) ensures p < m && entries[p] == Some(backends[b].peer) {
      var t := ClaimedTurn(picks, n, b, p);
    }
  }
}
