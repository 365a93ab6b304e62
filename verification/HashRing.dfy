/** The consistent-hash ring: keys belong to the next node clockwise. */
module HashRing {

  import opened Options

  const COORDINATES: nat := 0x1_0000_0000_0000_0000

  datatype Node = Node(hash: nat, peer: int)

  /** How far clockwise the hash lies from the key. */
  function Distance(key: nat, hash: nat): nat {
    (hash - key) % COORDINATES
  }

  ghost predicate InRange(nodes: seq<Node>) {
    forall i :: 0 <= i < |nodes| ==> nodes[i].hash < COORDINATES
  }

  /** Sorted by hash, without two nodes at one hash. */
  ghost predicate Ring(nodes: seq<Node>) {
    InRange(nodes) && forall i, j :: 0 <= i < j < |nodes| ==> nodes[i].hash < nodes[j].hash
  }

  /** The node belongs to the ring and none is closer to the key. */
  ghost predicate Nearest(nodes: seq<Node>, key: nat, n: Node) {
    n in nodes && forall n' :: n' in nodes ==> Distance(key, n.hash) <= Distance(key, n'.hash)
  }

  lemma DistanceIs(key: nat, hash: nat)
    requires key < COORDINATES && hash < COORDINATES
    ensures Distance(key, hash) == if key <= hash then hash - key else hash - key + COORDINATES
  {
  }

  /** Binary search, wrapping to the head: the cyclic successor of the key. */
  method Lookup(nodes: seq<Node>, key: nat) returns (r: Option<int>)
    requires Ring(nodes) && key < COORDINATES
    ensures nodes == [] ==> r == None
    ensures nodes != [] ==> r.Some? && exists n :: Nearest(nodes, key, n) && n.peer == r.value
  {
    if nodes == [] { return None; }
    var lo, hi := 0, |nodes|;
    while lo < hi
      invariant 0 <= lo <= hi <= |nodes|
      invariant forall i :: 0 <= i < lo ==> nodes[i].hash < key
      invariant forall i :: hi <= i < |nodes| ==> key <= nodes[i].hash
    {
      var mid := (lo + hi) / 2;
      if nodes[mid].hash < key {
        lo := mid + 1;
      } else {
        hi := mid;
      }
    }
    SuccessorNearest(nodes, key, lo);
    if lo == |nodes| {
      lo := 0;
    }
    return Some(nodes[lo].peer);
  }

  lemma SuccessorNearest(nodes: seq<Node>, key: nat, lo: nat)
    requires Ring(nodes) && key < COORDINATES && nodes != [] && lo <= |nodes|
    requires (forall i :: 0 <= i < lo ==> nodes[i].hash < key) && forall i :: lo <= i < |nodes| ==> key <= nodes[i].hash
    ensures Nearest(nodes, key, nodes[if lo == |nodes| then 0 else lo])
  {
    var n := nodes[if lo == |nodes| then 0 else lo];
    forall n' | n' in nodes ensures Distance(key, n.hash) <= Distance(key, n'.hash) {
      var i :| 0 <= i < |nodes| && nodes[i] == n';
      DistanceIs(key, n.hash);
      DistanceIs(key, n'.hash);
    }
  }

  /** Distinct hashes leave one nearest node, however the ring is stored. */
  lemma NearestUnique(nodes: seq<Node>, key: nat, n: Node, n': Node)
    requires Ring(nodes) && key < COORDINATES && Nearest(nodes, key, n) && Nearest(nodes, key, n')
    ensures n == n'
  {
    DistanceIs(key, n.hash);
    DistanceIs(key, n'.hash);
    var i :| 0 <= i < |nodes| && nodes[i] == n;
    var j :| 0 <= j < |nodes| && nodes[j] == n';
    assert n.hash == n'.hash;
  }

  // ----- Rings built from virtual nodes -----

  ghost predicate HasHash(nodes: seq<Node>, hash: nat) {
    exists n :: n in nodes && n.hash == hash
  }

  /**
   What sorting the virtual nodes by hash and dropping all but one of those at the same hash may produce: the sort
   is not stable, so which of them stays is left open.
   */
  ghost predicate RingOf(all: seq<Node>, nodes: seq<Node>) {
    && Ring(nodes) && (forall n :: n in nodes ==> n in all)
    && forall n :: n in all ==> HasHash(nodes, n.hash)
  }

  /** The virtual nodes of all other peers. */
  function Others(all: seq<Node>, peer: int): (r: seq<Node>)
    ensures forall n :: n in r <==> n in all && n.peer != peer
  {
    if all == [] then []
    else Others(all[..|all| - 1], peer) + if all[|all| - 1].peer != peer then [all[|all| - 1]] else []
  }

  /** Keys that `peer` does not own keep their owner when it leaves. */
  ghost predicate StaysPut(nodes: seq<Node>, fewer: seq<Node>, peer: int) {
    forall key: nat, n :: key < COORDINATES && Nearest(nodes, key, n) && n.peer != peer ==> Nearest(fewer, key, n)
  }

  /** Keys keep their owner or go to `peer` when it joins. */
  ghost predicate MovesTo(fewer: seq<Node>, nodes: seq<Node>, peer: int) {
    forall key: nat, was, n :: key < COORDINATES && Nearest(fewer, key, was) && Nearest(nodes, key, n) ==>
      n.peer == peer || n == was
  }

  /** No two other peers share a hash. */
  ghost predicate Apart(all: seq<Node>, peer: int) {
    forall n, n' :: n in all && n' in all && n.peer != peer && n'.peer != peer && n.hash == n'.hash ==> n == n'
  }

  lemma OtherStays(all: seq<Node>, peer: int, nodes: seq<Node>, fewer: seq<Node>, key: nat, n: Node)
    requires Apart(all, peer) && RingOf(all, nodes) && RingOf(Others(all, peer), fewer)
    requires Nearest(nodes, key, n) && n.peer != peer
    ensures Nearest(fewer, key, n)
  {
    assert HasHash(fewer, n.hash);
    forall n' | n' in fewer ensures Distance(key, n.hash) <= Distance(key, n'.hash) {
      assert HasHash(nodes, n'.hash);
    }
  }

  lemma ApartStays(all: seq<Node>, peer: int, nodes: seq<Node>, fewer: seq<Node>)
    requires Apart(all, peer) && RingOf(all, nodes) && RingOf(Others(all, peer), fewer)
    ensures StaysPut(nodes, fewer, peer) && MovesTo(fewer, nodes, peer)
  {
    forall key: nat, n | key < COORDINATES && Nearest(nodes, key, n) && n.peer != peer ensures Nearest(fewer, key, n) {
      OtherStays(all, peer, nodes, fewer, key, n);
    }
    forall key: nat, was, n | key < COORDINATES && Nearest(fewer, key, was) && Nearest(nodes, key, n)
      ensures n.peer == peer || n == was
    {
      if n.peer != peer {
        OtherStays(all, peer, nodes, fewer, key, n);
        NearestUnique(fewer, key, n, was);
      }
    }
  }

  // ----- With a collision a key can move between two peers that both stay -----

  function Insert(nodes: seq<Node>, n: Node): seq<Node> {
    if nodes == [] then [n]
    else if n.hash < nodes[0].hash then [n] + nodes
    else if n.hash == nodes[0].hash then nodes
    else [nodes[0]] + Insert(nodes[1..], n)
  }

  lemma {:induction false} InsertIs(nodes: seq<Node>, n: Node)
    requires Ring(nodes) && n.hash < COORDINATES
    ensures var r := Insert(nodes, n);
      && Ring(r) && HasHash(r, n.hash)
      && (forall n' :: n' in nodes ==> n' in r) && (forall n' :: n' in r ==> n' == n || n' in nodes)
  {
    var r := Insert(nodes, n);
    if nodes != [] && nodes[0].hash < n.hash {
      var rest := nodes[1..];
      InsertIs(rest, n);
      assert nodes == [nodes[0]] + rest;
      forall i | 0 < i < |r| ensures nodes[0].hash < r[i].hash {
        assert r[i] in Insert(rest, n);
      }
    } else if nodes != [] && n.hash == nodes[0].hash {
      assert nodes[0] in r;
    } else {
      assert r[0] == n;
    }
  }

  function Build(all: seq<Node>): seq<Node> {
    if all == [] then [] else Insert(Build(all[..|all| - 1]), all[|all| - 1])
  }

  lemma RingOfInsert(front: seq<Node>, nodes: seq<Node>, n: Node)
    requires RingOf(front, nodes) && n.hash < COORDINATES
    ensures RingOf(front + [n], Insert(nodes, n))
  {
    InsertIs(nodes, n);
    forall n' | n' in front + [n] ensures HasHash(Insert(nodes, n), n'.hash) {
      if n' in front {
        assert HasHash(nodes, n'.hash);
      }
    }
  }

  lemma {:induction false} BuildIs(all: seq<Node>)
    requires InRange(all)
    ensures RingOf(all, Build(all))
  {
    if all != [] {
      var front, n := all[..|all| - 1], all[|all| - 1];
      BuildIs(front);
      RingOfInsert(front, Build(front), n);
      assert all == front + [n];
    }
  }

  lemma {:induction false} FirstStays(all: seq<Node>)
    requires InRange(all) && all != []
    ensures all[0] in Build(all)
  {
    var front := all[..|all| - 1];
    if front != [] {
      FirstStays(front);
      BuildIs(front);
      InsertIs(Build(front), all[|all| - 1]);
    }
  }

  /** Any virtual node can be the one that stays. */
  lemma RingKeeping(all: seq<Node>, n: Node) returns (nodes: seq<Node>)
    requires InRange(all) && n in all
    ensures RingOf(all, nodes) && n in nodes
  {
    nodes := Build([n] + all);
    BuildIs([n] + all);
    FirstStays([n] + all);
    forall n' | n' in all ensures HasHash(nodes, n'.hash) {
      assert n' in [n] + all;
    }
  }

  lemma OwnHashNearest(nodes: seq<Node>, n: Node)
    requires n in nodes && n.hash < COORDINATES
    ensures Nearest(nodes, n.hash, n)
  {
    DistanceIs(n.hash, n.hash);
  }

  lemma CollisionMoves(all: seq<Node>, peer: int, n: Node, n': Node)
    requires InRange(all) && n in all && n' in all && n.peer != peer && n'.peer != peer && n.hash == n'.hash && n != n'
    ensures exists nodes, fewer ::
      && RingOf(all, nodes) && RingOf(Others(all, peer), fewer)
      && !StaysPut(nodes, fewer, peer) && !MovesTo(fewer, nodes, peer)
  {
    var nodes := RingKeeping(all, n);
    var others := Others(all, peer);
    forall i | 0 <= i < |others| ensures others[i].hash < COORDINATES {
      assert others[i] in all;
    }
    var fewer := RingKeeping(others, n');
    var i :| 0 <= i < |all| && all[i] == n;
    OwnHashNearest(nodes, n);
    OwnHashNearest(fewer, n');
    MovedBetween(nodes, fewer, peer, n, n');
  }

  /** The key at the shared hash goes from one of the two to the other. */
  lemma MovedBetween(nodes: seq<Node>, fewer: seq<Node>, peer: int, n: Node, n': Node)
    requires n.hash == n'.hash < COORDINATES && n != n' && n.peer != peer && Ring(fewer)
    requires Nearest(nodes, n.hash, n) && Nearest(fewer, n.hash, n')
    ensures !StaysPut(nodes, fewer, peer) && !MovesTo(fewer, nodes, peer)
  {
    if Nearest(fewer, n.hash, n) {
      NearestUnique(fewer, n.hash, n, n');
    }
  }

  /** The two halves of the ring's promise, for every way the sort may resolve collisions. */
  ghost predicate LeavesQuietly(all: seq<Node>, peer: int) {
    forall nodes, fewer :: RingOf(all, nodes) && RingOf(Others(all, peer), fewer) ==> StaysPut(nodes, fewer, peer)
  }

  ghost predicate JoinsQuietly(all: seq<Node>, peer: int) {
    forall nodes, fewer :: RingOf(all, nodes) && RingOf(Others(all, peer), fewer) ==> MovesTo(fewer, nodes, peer)
  }

  /**
   When a peer leaves, only its own keys move, and when it joins, keys move only to it: each of the two holds
   exactly when no two of the other peers have a virtual node in common.
   */
  lemma StaysPutIffApart(all: seq<Node>, peer: int)
    requires InRange(all)
    ensures LeavesQuietly(all, peer) <==> Apart(all, peer)
    ensures JoinsQuietly(all, peer) <==> Apart(all, peer)
  {
    if Apart(all, peer) {
      forall nodes, fewer | RingOf(all, nodes) && RingOf(Others(all, peer), fewer)
        ensures StaysPut(nodes, fewer, peer) && MovesTo(fewer, nodes, peer)
      {
        ApartStays(all, peer, nodes, fewer);
      }
    } else {
      var n, n' :| n in all && n' in all && n.peer != peer && n'.peer != peer && n.hash == n'.hash && n != n';
      CollisionMoves(all, peer, n, n');
    }
  }
}
