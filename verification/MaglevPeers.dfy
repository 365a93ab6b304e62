/**
 Maglev hashing over weighted peers: every available peer is as many logical backends as it weighs and owns as many
 shares of the table.
 */
module MaglevPeers {

  import opened Options
  import opened Sequences
  import opened Maglev

  type Hash = (string, nat) -> nat

  function Replica(p: Peer, m: nat, h1: Hash, h2: Hash, i: nat): (b: Backend)
    requires m > 1
    ensures Fits(b, m) && b.peer == p
  {
    Backend(p, h1(p.name, i) % m, h2(p.name, i) % (m - 1) + 1)
  }

  function Weight(p: Peer): nat {
    if p.weight < 1 then 1 else p.weight
  }

  /** The available peers in order. */
  function Live(peers: seq<Peer>, available: Peer -> bool): (r: seq<Peer>)
    ensures forall p :: p in r <==> p in peers && available(p)
  {
    if peers == [] then []
    else
      var n := |peers| - 1;
      assert peers == peers[..n] + [peers[n]];
      Live(peers[..n], available) + if available(peers[n]) then [peers[n]] else []
  }

  lemma LiveNext(peers: seq<Peer>, available: Peer -> bool, k: nat)
    requires k < |peers|
    ensures var live := Live(peers[..k], available);
      Live(peers[..k + 1], available) == if available(peers[k]) then live + [peers[k]] else live
  {
    assert peers[..k + 1][..k] == peers[..k];
  }

  lemma {:induction false} LiveOnce(peers: seq<Peer>, available: Peer -> bool)
    requires NoneTwice(peers)
    ensures NoneTwice(Live(peers, available))
  {
    if peers != [] {
      LiveOnce(peers[..|peers| - 1], available);
    }
  }

  // ----- Logical backends -----

  /** How many logical backends the first `k` peers are. */
  function Before(live: seq<Peer>, k: nat): nat
    requires k <= |live|
  {
    if k == 0 then 0 else Before(live, k - 1) + Weight(live[k - 1])
  }

  lemma {:induction false} BeforeExtend(live: seq<Peer>, more: seq<Peer>, k: nat)
    requires k <= |live|
    ensures Before(live + more, k) == Before(live, k)
  {
    if k > 0 {
      BeforeExtend(live, more, k - 1);
    }
  }

  lemma {:induction false} BeforeGrows(live: seq<Peer>, j: nat, k: nat)
    requires j < k <= |live|
    ensures Before(live, j) + Weight(live[j]) <= Before(live, k)
  {
    if j + 1 < k {
      BeforeGrows(live, j, k - 1);
    }
  }

  /** Every backend belongs to a peer. */
  lemma {:induction false} Located(live: seq<Peer>, n: nat, b: nat) returns (k: nat)
    requires n <= |live| && b < Before(live, n)
    ensures k < n && Before(live, k) <= b < Before(live, k) + Weight(live[k])
  {
    if Before(live, n - 1) <= b {
      k := n - 1;
    } else {
      k := Located(live, n - 1, b);
    }
  }

  ghost predicate Stands(live: seq<Peer>, m: nat, h1: Hash, h2: Hash, r: seq<Backend>, k: nat, i: nat)
    requires m > 1 && k < |live|
  {
    Before(live, k) + i < |r| && r[Before(live, k) + i] == Replica(live[k], m, h1, h2, i)
  }

  /** `r` lists the peers in order, each as many times in a row as it weighs, every time with a walk of its own. */
  ghost predicate Lists(live: seq<Peer>, m: nat, h1: Hash, h2: Hash, r: seq<Backend>)
    requires m > 1
  {
    && |r| == Before(live, |live|)
    && forall k: nat, i: nat :: k < |live| && i < Weight(live[k]) ==> Stands(live, m, h1, h2, r, k, i)
  }

  function Replicas(p: Peer, m: nat, h1: Hash, h2: Hash, k: nat): (r: seq<Backend>)
    requires m > 1
    ensures |r| == k && forall i: nat :: i < k ==> r[i] == Replica(p, m, h1, h2, i)
  {
    if k == 0 then [] else Replicas(p, m, h1, h2, k - 1) + [Replica(p, m, h1, h2, k - 1)]
  }

  lemma ListsMore(live: seq<Peer>, m: nat, h1: Hash, h2: Hash, r: seq<Backend>, p: Peer)
    requires m > 1 && Lists(live, m, h1, h2, r)
    ensures Lists(live + [p], m, h1, h2, r + Replicas(p, m, h1, h2, Weight(p)))
  {
    var live', r' := live + [p], r + Replicas(p, m, h1, h2, Weight(p));
    BeforeExtend(live, [p], |live|);
    forall k: nat, i: nat | k < |live'| && i < Weight(live'[k]) ensures Stands(live', m, h1, h2, r', k, i) {
      BeforeExtend(live, [p], if k < |live| then k else 0);
      if k < |live| {
        assert Stands(live, m, h1, h2, r, k, i);
      }
    }
  }

  lemma ListsFit(live: seq<Peer>, m: nat, h1: Hash, h2: Hash, r: seq<Backend>)
    requires m > 1 && Lists(live, m, h1, h2, r)
    ensures forall b :: b in r ==> Fits(b, m) && b.peer in live
  {
    forall b: nat | b < |r| ensures Fits(r[b], m) && r[b].peer in live {
      var k := Located(live, |live|, b);
      assert Stands(live, m, h1, h2, r, k, b - Before(live, k));
    }
  }

  lemma Whose(live: seq<Peer>, m: nat, h1: Hash, h2: Hash, r: seq<Backend>, b: nat) returns (k: nat)
    requires m > 1 && Lists(live, m, h1, h2, r) && b < |r|
    ensures k < |live| && Before(live, k) <= b < Before(live, k) + Weight(live[k]) && r[b].peer == live[k]
  {
    k := Located(live, |live|, b);
    assert Stands(live, m, h1, h2, r, k, b - Before(live, k));
  }

  /** The stretches of two peers have nothing in common. */
  lemma StretchesApart(live: seq<Peer>, j: nat, k: nat, b: nat)
    requires j < |live| && k < |live| && j != k && Before(live, j) <= b < Before(live, j) + Weight(live[j])
    ensures !(Before(live, k) <= b < Before(live, k) + Weight(live[k]))
  {
    if j < k {
      BeforeGrows(live, j, k);
    } else {
      BeforeGrows(live, k, j);
    }
  }

  /** The backends of a peer that stands only once are the ones in its own stretch. */
  lemma ListsWhose(live: seq<Peer>, m: nat, h1: Hash, h2: Hash, r: seq<Backend>, k: nat, b: nat)
    requires m > 1 && Lists(live, m, h1, h2, r) && NoneTwice(live) && k < |live| && b < |r|
    ensures r[b].peer == live[k] <==> Before(live, k) <= b < Before(live, k) + Weight(live[k])
  {
    var j := Whose(live, m, h1, h2, r, b);
    if j != k {
      StretchesApart(live, j, k, b);
    }
  }

  method AddReplicas(backends: seq<Backend>, p: Peer, m: nat, h1: Hash, h2: Hash) returns (r: seq<Backend>)
    requires m > 1
    ensures r == backends + Replicas(p, m, h1, h2, Weight(p))
  {
    var weight := if p.weight > 1 then p.weight else 1;
    r := backends;
    for replica := 0 to weight
      invariant r == backends + Replicas(p, m, h1, h2, replica)
    {
      r := r + [Backend(p, h1(p.name, replica) % m, h2(p.name, replica) % (m - 1) + 1)];
    }
  }

  method ExpandPeers(peers: seq<Peer>, available: Peer -> bool, m: nat, h1: Hash, h2: Hash) returns (r: seq<Backend>)
    requires m > 1
    ensures Lists(Live(peers, available), m, h1, h2, r)
  {
    r := [];
    for k := 0 to |peers|
      invariant Lists(Live(peers[..k], available), m, h1, h2, r)
    {
      LiveNext(peers, available, k);
      ListsMore(Live(peers[..k], available), m, h1, h2, r, peers[k]);
      if available(peers[k]) {
        r := AddReplicas(r, peers[k], m, h1, h2);
      }
    }
    assert peers[..|peers|] == peers;
  }

  // ----- Shares -----

  /** All slots of the backends from `lo` up to `hi`. */
  ghost function Union(f: nat -> set<nat>, lo: nat, hi: nat): set<nat>
    requires lo <= hi
  {
    if lo == hi then {} else Union(f, lo, hi - 1) + f(hi - 1)
  }

  lemma {:induction false} InUnion(f: nat -> set<nat>, lo: nat, hi: nat, x: nat)
    requires lo <= hi
    ensures x in Union(f, lo, hi) <==> exists b: nat :: lo <= b < hi && x in f(b)
    decreases hi
  {
    if lo < hi {
      InUnion(f, lo, hi - 1, x);
    }
  }

  lemma {:induction false} ClaimedApart(picks: seq<nat>, n: nat, b: nat, c: nat)
    requires NoneTwice(picks) && n > 0 && b != c
    ensures Claimed(picks, n, b) !! Claimed(picks, n, c)
  {
    if picks != [] {
      var front := picks[..|picks| - 1];
      ClaimedApart(front, n, b, c);
      ClaimedIn(front, n, b);
      ClaimedIn(front, n, c);
    }
  }

  lemma OneMore(k: int, q: int, u: int, v: int)
    requires k * q <= u <= k * q + k && q <= v <= q + 1
    ensures (k + 1) * q <= u + v <= (k + 1) * q + k + 1
  {
  }

  lemma {:induction false} UnionApart(f: nat -> set<nat>, lo: nat, hi: nat, c: nat)
    requires lo <= hi && forall b: nat :: lo <= b < hi ==> f(b) !! f(c)
    ensures Union(f, lo, hi) !! f(c)
    decreases hi
  {
    if lo < hi {
      UnionApart(f, lo, hi - 1, c);
    }
  }

  lemma UnionStep(f: nat -> set<nat>, lo: nat, hi: nat)
    requires lo < hi && forall b: nat :: lo <= b < hi - 1 ==> f(b) !! f(hi - 1)
    ensures |Union(f, lo, hi)| == |Union(f, lo, hi - 1)| + |f(hi - 1)|
  {
    UnionApart(f, lo, hi - 1, hi - 1);
  }

  lemma {:induction false} UnionCount(f: nat -> set<nat>, lo: nat, hi: nat, q: nat)
    requires lo <= hi && forall b: nat, c: nat :: lo <= b < c < hi ==> f(b) !! f(c)
    requires forall b: nat :: lo <= b < hi ==> q <= |f(b)| <= q + 1
    ensures (hi - lo) * q <= |Union(f, lo, hi)| <= (hi - lo) * q + (hi - lo)
    decreases hi
  {
    if lo < hi {
      UnionCount(f, lo, hi - 1, q);
      UnionStep(f, lo, hi);
      OneMore(hi - 1 - lo, q, |Union(f, lo, hi - 1)|, |f(hi - 1)|);
    }
  }

  /** Any `w` logical backends in a row own `w` equal shares, give or take one slot each. */
  lemma StretchShare(picks: seq<nat>, n: nat, lo: nat, hi: nat)
    requires NoneTwice(picks) && lo <= hi <= n && n > 0
    ensures var w, q := hi - lo, |picks| / n;
      w * q <= |Union((b: nat) => Claimed(picks, n, b), lo, hi)| <= w * q + w
  {
    var f := (b: nat) => Claimed(picks, n, b);
    forall b: nat | b < n ensures |picks| / n <= |f(b)| <= |picks| / n + 1 {
      EvenShares(picks, n, b);
    }
    forall b: nat, c: nat | b < c < n ensures f(b) !! f(c) {
      ClaimedApart(picks, n, b, c);
    }
    UnionCount(f, lo, hi, |picks| / n);
  }

  /** The slots of the table in which peer `p` stands. */
  ghost function Owned(entries: seq<Option<Peer>>, p: Peer): set<nat> {
    set s: nat | s < |entries| && entries[s] == Some(p)
  }

  lemma {:induction false} ClaimedHas(picks: seq<nat>, n: nat, t: nat)
    requires n > 0 && t < |picks|
    ensures picks[t] in Claimed(picks, n, t % n)
  {
    if t < |picks| - 1 {
      ClaimedHas(picks[..|picks| - 1], n, t);
    }
  }

  /** Who holds a slot is the peer of the backend in whose turn it was claimed. */
  lemma HeldBy(backends: seq<Backend>, m: nat, entries: seq<Option<Peer>>, picks: seq<nat>, s: nat) returns (t: nat)
    requires Finished(backends, m, entries, picks) && s < m
    ensures t < m && picks[t] == s && entries[s] == Some(backends[t % |backends|].peer)
    ensures s in Claimed(picks, |backends|, t % |backends|)
  {
    NoSlotEmpty(backends, m, entries, picks, s);
    t :| t < |picks| && picks[t] == s;
    ClaimedHas(picks, |backends|, t);
  }

  lemma OwnedIs(
      live: seq<Peer>, m: nat, h1: Hash, h2: Hash, r: seq<Backend>, entries: seq<Option<Peer>>, picks: seq<nat>, k: nat)
    requires m > 1 && Lists(live, m, h1, h2, r) && NoneTwice(live) && k < |live| && Finished(r, m, entries, picks)
    ensures var lo := Before(live, k);
      Owned(entries, live[k]) == Union((b: nat) => Claimed(picks, |r|, b), lo, lo + Weight(live[k]))
  {
    var f, lo, hi := (b: nat) => Claimed(picks, |r|, b), Before(live, k), Before(live, k) + Weight(live[k]);
    forall s: nat ensures s in Owned(entries, live[k]) <==> s in Union(f, lo, hi) {
      InUnion(f, lo, hi, s);
      if s in Owned(entries, live[k]) {
        var t := HeldBy(r, m, entries, picks, s);
        ListsWhose(live, m, h1, h2, r, k, t % |r|);
        assert s in f(t % |r|);
      } else if s in Union(f, lo, hi) {
        var b: nat :| lo <= b < hi && s in f(b);
        Stretch(live, k);
        BalancedTable(r, m, entries, picks, b, b);
        ListsWhose(live, m, h1, h2, r, k, b);
      }
    }
  }

  lemma Stretch(live: seq<Peer>, k: nat)
    requires k < |live|
    ensures Before(live, k) + Weight(live[k]) <= Before(live, |live|)
  {
    BeforeGrows(live, k, |live|);
  }

  /**
   In the table built for peers that differ, a peer of weight w stands in w equal shares of the slots, give or take one
   slot each.
   */
  lemma WeightedShares(
      live: seq<Peer>, m: nat, h1: Hash, h2: Hash, r: seq<Backend>, entries: seq<Option<Peer>>, picks: seq<nat>, k: nat)
    requires m > 1 && Lists(live, m, h1, h2, r) && NoneTwice(live) && k < |live| && Finished(r, m, entries, picks)
    ensures var w, q := Weight(live[k]), m / |r|; w * q <= |Owned(entries, live[k])| <= w * q + w
  {
    var lo := Before(live, k);
    OwnedIs(live, m, h1, h2, r, entries, picks, k);
    PlayedOnce(r, m, picks);
    Stretch(live, k);
    StretchShare(picks, |r|, lo, lo + Weight(live[k]));
  }

  /** And nobody else stands anywhere. */
  lemma OthersOwnNothing(
      live: seq<Peer>, m: nat, h1: Hash, h2: Hash, r: seq<Backend>, entries: seq<Option<Peer>>, picks: seq<nat>, s: nat)
    requires m > 1 && Lists(live, m, h1, h2, r) && Finished(r, m, entries, picks) && s < m
    ensures entries[s].Some? && entries[s].value in live
  {
    var t := HeldBy(r, m, entries, picks, s);
    ListsFit(live, m, h1, h2, r);
  }
}
