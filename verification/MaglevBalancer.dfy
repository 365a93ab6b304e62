/**
 The Maglev balancer: a lookup finds the peer whose backend claimed the slot, and the table is kept for as long as the
 fingerprint of the available peers stays the same.
 */
module MaglevBalancer {

  import opened Options
  import opened Primes
  import opened Maglev
  import opened MaglevPeers
  import opened MaglevFingerprints

  // ----- The balancer -----

  datatype Table = Table(entries: seq<Option<Peer>>, fingerprint: string)

  /** The table is the one that the turns of the peers' backends fill, and bears their fingerprint. */
  ghost predicate BuiltFor(
      live: seq<Peer>, m: nat, h1: Hash, h2: Hash, table: Table, r: seq<Backend>, picks: seq<nat>) {
    && m > 1 && Lists(live, m, h1, h2, r) && table.fingerprint == Fingerprint(live)
    && if r == [] then table.entries == [] else Finished(r, m, table.entries, picks)
  }

  lemma NobodyListed(live: seq<Peer>, m: nat, h1: Hash, h2: Hash, r: seq<Backend>)
    requires m > 1 && Lists(live, m, h1, h2, r)
    ensures r == [] <==> live == []
  {
    if live != [] {
      Stretch(live, 0);
    }
  }

  /** The peer of the backend that claims the slot of `hash`. */
  ghost predicate Serves(r: seq<Backend>, m: nat, picks: seq<nat>, hash: nat, p: Peer) {
    && m > 0 && r != [] && |picks| == m && Played(r, m, picks)
    && exists t: nat :: t < m && picks[t] == hash % m && r[t % |r|].peer == p
  }

  class MaglevLB {
    const m: nat
    const h1: Hash
    const h2: Hash
    var table: Option<Table>
    ghost var source: seq<Peer>
    ghost var backends: seq<Backend>
    ghost var picks: seq<nat>

    /** A table that has been stored was built for some peers. */
    ghost predicate Valid()
      reads this
    {
      && Prime(m) && (table.None? <==> source == [])
      && (table.Some? ==> BuiltFor(source, m, h1, h2, table.value, backends, picks))
    }

    constructor (m: nat, h1: Hash, h2: Hash)
      requires Prime(m)
      ensures Valid() && table == None && source == []
    {
      this.m, this.h1, this.h2 := m, h1, h2;
      table, source, backends, picks := None, [], [], [];
    }

    method ComputeFingerprint(peers: seq<Peer>, available: Peer -> bool) returns (fp: string)
      ensures fp == Fingerprint(Live(peers, available))
    {
      fp := "";
      for k := 0 to |peers|
        invariant fp == Fingerprint(Live(peers[..k], available))
      {
        LiveNext(peers, available, k);
        if available(peers[k]) {
          ghost var live := Live(peers[..k], available);
          assert (live + [peers[k]])[..|live|] == live;
          fp := fp + Label(peers[k]) + [';'];
        }
      }
      assert peers[..|peers|] == peers;
    }

    method Rebuild(peers: seq<Peer>, available: Peer -> bool)
      requires Prime(m) && Live(peers, available) != []
      modifies this
      ensures Valid() && table.Some? && source == Live(peers, available)
    {
      var fp := ComputeFingerprint(peers, available);
      var r := ExpandPeers(peers, available, m, h1, h2);
      ListsFit(Live(peers, available), m, h1, h2, r);
      var entries, turns := BuildTable(r, m);
      table := Some(Table(entries[..], fp));
      source, backends, picks := Live(peers, available), r, turns;
    }

    method Lookup(hash: nat) returns (r: Option<Peer>)
      requires Valid() && table.Some?
      ensures r == None <==> source == []
      ensures r.Some? ==> r.value in source && Serves(backends, m, picks, hash, r.value)
    {
      var entries := table.value.entries;
      NobodyListed(source, m, h1, h2, backends);
      if entries == [] { return None; }
      ghost var t := HeldBy(backends, m, entries, picks, hash % m);
      OthersOwnNothing(source, m, h1, h2, backends, entries, picks, hash % m);
      return entries[hash % |entries|];
    }

    /**
     The table is kept if the available peers have the fingerprint of those it was built for, and rebuilt otherwise;
     the answer comes from it. As long as all names are legible these are the peers that are available, and so is
     the answer.
     */
    method Select(peers: seq<Peer>, available: Peer -> bool, hash: nat, ghost ok: int -> bool) returns (r: Option<Peer>)
      requires Valid()
      modifies this
      ensures Valid() && source == Keep(old(source), Live(peers, available))
      ensures source == old(source) ==> table == old(table) && backends == old(backends) && picks == old(picks)
      ensures r == None <==> Live(peers, available) == []
      ensures r.Some? ==> r.value in source && Serves(backends, m, picks, hash, r.value)
      ensures old(Legible(ok, source)) && Legible(ok, Live(peers, available)) ==>
        && Legible(ok, source) && (r.Some? ==> source == Live(peers, available) && available(r.value))
    {
      var fp := ComputeFingerprint(peers, available);
      PrintEnds(Live(peers, available));
      PrintEnds(source);
      if fp == "" { return None; }
      if table.None? || table.value.fingerprint != fp {
        Rebuild(peers, available);
      }
      r := Lookup(hash);
      if old(Legible(ok, source)) && Legible(ok, Live(peers, available)) {
        FingerprintInjective(ok, source, Live(peers, available));
      }
    }
  }

  /**
   Two selections. The first finds only `p` available; the second finds only the two peers that its name splits
   into, and gets `p`, which is not one of them.
   */
  method StaleSelection(m: nat, h1: Hash, h2: Hash, p: Peer, u: string, w: int, y: string, hash: nat)
    returns (lb: MaglevLB, first: Option<Peer>, second: Option<Peer>)
    requires Prime(m) && Splits(p.name, u, w, y)
    ensures fresh(lb) && lb.Valid() && first == second == Some(p)
    ensures var one, two := Peer(u, w), Peer(y, p.weight);
      p != one && p != two && Live([p, one, two], Except(p)) == [one, two]
  {
    var peers := [p, Peer(u, w), Peer(y, p.weight)];
    lb := new MaglevLB(m, h1, h2);
    SplitStale(p, u, w, y);
    SplitLive(p, Peer(u, w), Peer(y, p.weight));
    FingerprintsClash(p, u, w, y);
    PrintEnds([p]);
    first := lb.Select(peers, Only(p), hash, x => true);
    second := lb.Select(peers, Except(p), hash, x => true);
  }
}
