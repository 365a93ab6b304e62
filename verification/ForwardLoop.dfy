/** Forwarding a request upstream: attempts, failover and what is released and reported on every way out. */
module ForwardLoop {

  import opened HttpMessage
  import opened Options

  const NONE := -1

  predicate Idempotent(m: Method) {
    m == Get || m == Head || m == Put || m == Delete || m == Options || m == Trace
  }

  /** How relaying the response ends: it breaks before or after the response headers, or it completes. */
  datatype Relay = LostEarly | LostLate(serverError: bool) | Relayed(serverError: bool, reusable: bool)

  /** What the outside world does to one attempt: the pool, the connector, the peer and the balancer. */
  datatype Attempt = Attempt(pooled: bool, connected: bool, written: bool, relay: Relay, selected: int,
    available: int -> bool)

  datatype Status = NoPeer | UpstreamFailed | Completed

  /** The first available peer other than the current one. */
  ghost predicate Failover(peers: seq<int>, available: int -> bool, current: int, r: int) {
    if r == NONE then NoneBefore(peers, available, current, |peers|)
    else
      && r != current && available(r)
      && exists k :: 0 <= k < |peers| && peers[k] == r && NoneBefore(peers, available, current, k)
  }

  ghost predicate NoneBefore(peers: seq<int>, available: int -> bool, current: int, k: int) {
    forall i :: 0 <= i < k && i < |peers| ==> peers[i] == current || !available(peers[i])
  }

  method SelectFailoverPeer(peers: seq<int>, available: int -> bool, current: int) returns (r: int)
    requires NONE !in peers
    ensures Failover(peers, available, current, r)
  {
    for i := 0 to |peers|
      invariant NoneBefore(peers, available, current, i)
    {
      if peers[i] != current && available(peers[i]) { return peers[i]; }
    }
    return NONE;
  }

  function Count(m: map<int, int>, p: int): int {
    if p in m then m[p] else 0
  }

  /** The upstream, the pool and the breaker as one request sees them, with a record of what the request did. */
  class Upstream {
    const peers: seq<int>
    const limit: nat
    var slots: int
    var active: map<int, int>
    /** Outcomes reported to the breaker. */
    var outcomes: seq<bool>
    /** The peer of every attempt. */
    var tried: seq<int>
    /** The peers that the request was written to, each with the peer that it was written out for. */
    var writes: seq<(int, int)>
    /** The peers whose connections went back to the pool. */
    var kept: seq<int>

    constructor (peers: seq<int>, limit: nat)
      ensures this.peers == peers && this.limit == limit
      ensures slots == 0 && active == map[] && outcomes == [] && tried == [] && writes == [] && kept == []
    {
      this.peers, this.limit := peers, limit;
      slots, active, outcomes, tried, writes, kept := 0, map[], [], [], [], [];
    }

    method TryAcquireRequestSlot() returns (ok: bool)
      modifies `slots
      ensures ok <==> limit == 0 || old(slots) < limit
      ensures slots == old(slots) + if ok then 1 else 0
    {
      if limit != 0 && slots >= limit { return false; }
      slots := slots + 1;
      return true;
    }

    method ReleaseRequestSlot()
      modifies `slots
      ensures slots == old(slots) - 1
    {
      slots := slots - 1;
    }

    method Enter(peer: int)
      modifies `active
      ensures forall p :: Count(active, p) == Count(old(active), p) + if p == peer then 1 else 0
    {
      active := active[peer := Count(active, peer) + 1];
    }

    method Leave(peer: int)
      modifies `active
      ensures forall p :: Count(active, p) == Count(old(active), p) - if p == peer then 1 else 0
    {
      active := active[peer := Count(active, peer) - 1];
    }

    method Report(success: bool, breaker: bool)
      modifies `outcomes
      ensures outcomes == if breaker then old(outcomes) + [success] else old(outcomes)
    {
      if breaker {
        outcomes := outcomes + [success];
      }
    }
  }

  datatype Before = Before(slots: int, active: map<int, int>, outcomes: seq<bool>, tried: seq<int>,
    writes: seq<(int, int)>, kept: seq<int>)

  ghost function Now(u: Upstream): Before
    reads u
  {
    Before(u.slots, u.active, u.outcomes, u.tried, u.writes, u.kept)
  }

  // ----- The course of a request -----

  predicate Connected(a: Attempt) {
    a.pooled || a.connected
  }

  predicate Sent(a: Attempt) {
    Connected(a) && a.written
  }

  predicate Failed(a: Attempt) {
    !(Sent(a) && a.relay.Relayed?)
  }

  /** A request may be tried again if its method allows it, or if nothing of it can have reached the peer. */
  predicate MayRepeat(verb: Method, a: Attempt) {
    Idempotent(verb) || !Connected(a)
  }

  /** Where a request goes after an attempt: where the balancer sends it, or else to the first other available peer. */
  ghost predicate Chosen(peers: seq<int>, a: Attempt, current: int, next: int) {
    if a.selected != NONE && a.selected != current then next == a.selected
    else Failover(peers, a.available, current, next)
  }

  ghost predicate Leads(peers: seq<int>, verb: Method, a: Attempt, current: int, next: int) {
    Failed(a) && MayRepeat(verb, a) && next != NONE && Chosen(peers, a, current, next)
  }

  /** The peers of the attempts so far: every one but the last failed, could be repeated and led to the next. */
  ghost predicate Path(peers: seq<int>, verb: Method, world: nat -> Attempt, first: int, path: seq<int>) {
    && 1 <= |path| <= 3 && path[0] == first
    && forall k :: 0 < k < |path| ==> Leads(peers, verb, world(k - 1), path[k - 1], path[k])
  }

  /** The last attempt failed too, and may not be repeated, or is the third, or leaves nowhere to go. */
  ghost predicate GivesUp(peers: seq<int>, verb: Method, world: nat -> Attempt, path: seq<int>)
    requires path != []
  {
    var n := |path| - 1;
    Failed(world(n)) && (!MayRepeat(verb, world(n)) || n == 2 || Chosen(peers, world(n), path[n], NONE))
  }

  /** Each attempt that had a connection wrote the request, made out for its peer, to its peer. */
  function Written(world: nat -> Attempt, path: seq<int>): seq<(int, int)> {
    if path == [] then []
    else
      var n := |path| - 1;
      Written(world, path[..n]) + if Connected(world(n)) then [(path[n], path[n])] else []
  }

  /** The connection that goes back to the pool, if the response came whole and the peer keeps it open. */
  function Kept(world: nat -> Attempt, path: seq<int>): seq<int>
    requires path != []
  {
    var n := |path| - 1;
    if !Failed(world(n)) && world(n).relay.reusable then [path[n]] else []
  }

  /** What the first response headers among the first `k` attempts say about the upstream. */
  function Verdict(world: nat -> Attempt, k: nat): Option<bool> {
    if k == 0 then None
    else if Verdict(world, k - 1).Some? then Verdict(world, k - 1)
    else if Sent(world(k - 1)) && world(k - 1).relay != LostEarly then Some(!world(k - 1).relay.serverError)
    else None
  }

  /** The outcome owed to the breaker: the upstream works if its first response headers say so. */
  function Owed(world: nat -> Attempt, k: nat): bool {
    Verdict(world, k).Some? && Verdict(world, k).value
  }

  /** An attempt that the peer answers with response headers. */
  predicate Answered(a: Attempt) {
    Sent(a) && a.relay != LostEarly
  }

  /** The upstream works, or not, according to the first attempt that was answered; without one nothing is said. */
  lemma {:induction false} FirstAnswerDecides(world: nat -> Attempt, k: nat)
    ensures Verdict(world, k) == None <==> forall i: nat :: i < k ==> !Answered(world(i))
    ensures forall i: nat :: i < k && Answered(world(i)) && (forall j: nat :: j < i ==> !Answered(world(j))) ==>
      Verdict(world, k) == Some(!world(i).relay.serverError)
  {
    if k > 0 {
      FirstAnswerDecides(world, k - 1);
    }
  }

  /** The request is written to the peers of exactly the attempts that had a connection. */
  lemma {:induction false} WrittenIff(world: nat -> Attempt, path: seq<int>, w: (int, int))
    ensures w in Written(world, path) <==>
      exists k :: 0 <= k < |path| && Connected(world(k)) && w == (path[k], path[k])
  {
    if path != [] {
      WrittenIff(world, path[..|path| - 1], w);
    }
  }

  /** A request that has completed was written last to the peer that answered. */
  lemma CompletedWasWritten(world: nat -> Attempt, path: seq<int>)
    requires path != [] && !Failed(world(|path| - 1))
    ensures var w, peer := Written(world, path), path[|path| - 1]; w != [] && w[|w| - 1] == (peer, peer)
  {
  }

  lemma {:induction false} WrittenBound(world: nat -> Attempt, path: seq<int>)
    ensures |Written(world, path)| <= |path|
    ensures (forall k :: 0 <= k < |path| ==> !Connected(world(k))) ==> Written(world, path) == []
  {
    if path != [] {
      WrittenBound(world, path[..|path| - 1]);
    }
  }

  /** A request that must not be repeated is written once at most, and any other three times at most. */
  lemma WrittenOnce(peers: seq<int>, verb: Method, world: nat -> Attempt, first: int, path: seq<int>)
    requires Path(peers, verb, world, first, path)
    ensures |Written(world, path)| <= if Idempotent(verb) then 3 else 1
  {
    var n := |path| - 1;
    WrittenBound(world, path);
    WrittenBound(world, path[..n]);
    if !Idempotent(verb) {
      forall k | 0 <= k < n ensures !Connected(world(k)) {
        assert Leads(peers, verb, world(k), path[k], path[k + 1]);
      }
    }
  }

  lemma ChosenElsewhere(peers: seq<int>, a: Attempt, current: int, next: int)
    requires (a.selected == NONE || a.selected in peers) && Chosen(peers, a, current, next) && next != NONE
    ensures next in peers && next != current
  {
  }

  lemma PathMore(peers: seq<int>, verb: Method, world: nat -> Attempt, first: int, path: seq<int>, next: int)
    requires Path(peers, verb, world, first, path) && |path| < 3
    requires Leads(peers, verb, world(|path| - 1), path[|path| - 1], next)
    ensures Path(peers, verb, world, first, path + [next])
  {
  }

  lemma FailoverOnce(peers: seq<int>, available: int -> bool, current: int, r: int, s: int)
    requires NONE !in peers && Failover(peers, available, current, r) && Failover(peers, available, current, s)
    ensures r == s
  {
  }

  /** The course of a request is determined: two that start alike and see the same world agree as far as both go. */
  lemma {:induction false} OneCourse(
      peers: seq<int>, verb: Method, world: nat -> Attempt, first: int, p: seq<int>, q: seq<int>, k: nat)
    requires NONE !in peers && Path(peers, verb, world, first, p) && Path(peers, verb, world, first, q)
    requires k < |p| && k < |q|
    ensures p[k] == q[k]
  {
    if k > 0 {
      OneCourse(peers, verb, world, first, p, q, k - 1);
      var a := world(k - 1);
      assert Leads(peers, verb, a, p[k - 1], p[k]) && Leads(peers, verb, a, q[k - 1], q[k]);
      if a.selected == NONE || a.selected == p[k - 1] {
        FailoverOnce(peers, a.available, p[k - 1], p[k], q[k]);
      }
    }
  }

  // ----- What the request holds and has done -----

  /** One peer is entered more than before, or none if `peer` is NONE. */
  ghost predicate Inside(active: map<int, int>, before: map<int, int>, peer: int) {
    forall p :: Count(active, p) == Count(before, p) + if p == peer && peer != NONE then 1 else 0
  }

  /** The request holds a slot and is inside the peer, or holds nothing if `peer` is NONE; `said` has been reported. */
  ghost predicate Holding(u: Upstream, before: Before, breaker: bool, peer: int, said: Option<bool>)
    reads u`slots, u`active, u`outcomes
  {
    && u.slots == before.slots + (if peer == NONE then 0 else 1) && Inside(u.active, before.active, peer)
    && u.outcomes == before.outcomes + (if breaker && said.Some? then [said.value] else [])
  }

  ghost predicate Logged(u: Upstream, before: Before, path: seq<int>, writes: seq<(int, int)>, kept: seq<int>)
    reads u`tried, u`writes, u`kept
  {
    u.tried == before.tried + path && u.writes == before.writes + writes && u.kept == before.kept + kept
  }

  /**
   Where a request leaves the upstream: every slot and peer released, the one outcome that is owed, one write for every
   attempt that had a connection. It has completed if its last attempt has, and otherwise had to give up.
   */
  ghost predicate Ended(u: Upstream, before: Before, verb: Method, breaker: bool, world: nat -> Attempt, first: int,
        path: seq<int>, status: Status)
    reads u
  {
    && Path(u.peers, verb, world, first, path)
    && Holding(u, before, breaker, NONE, Some(Owed(world, |path|)))
    && Logged(u, before, path, Written(world, path), Kept(world, path))
    && (if status == Completed then !Failed(world(|path| - 1))
        else status == UpstreamFailed && GivesUp(u.peers, verb, world, path))
  }

  /** The request goes on with a peer. */
  ghost predicate Goes(u: Upstream, before: Before, verb: Method, breaker: bool, world: nat -> Attempt, first: int,
        path: seq<int>, peer: int, built: int, reported: bool, onWire: bool)
    reads u
  {
    && peer in u.peers && built == peer && reported == Verdict(world, |path|).Some?
    && Path(u.peers, verb, world, first, path + [peer])
    && Holding(u, before, breaker, peer, Verdict(world, |path|)) && Logged(u, before, path, Written(world, path), [])
    && (!Idempotent(verb) ==> !onWire)
  }

  /** Reports a failure unless something was reported already, and lets go of the peer and the slot. */
  method LetGo(u: Upstream, breaker: bool, peer: int, reported: bool, ghost before: Before, ghost said: Option<bool>)
    requires peer != NONE && reported == said.Some? && Holding(u, before, breaker, peer, said)
    modifies u`slots, u`active, u`outcomes
    ensures Holding(u, before, breaker, NONE, Some(said.Some? && said.value))
  {
    assert before.outcomes + [] == before.outcomes;
    if !reported {
      u.Report(false, breaker);
    }
    u.Leave(peer);
    u.ReleaseRequestSlot();
  }

  /**
   Another peer to go on with, if the balancer or the failover finds one; the request moves over to it and is
   written out again. `built` is the peer that the text in the buffer is made out for.
   */
  method MoveOn(u: Upstream, breaker: bool, peer: int, built: int, attempt: Attempt,
                ghost before: Before, ghost said: Option<bool>)
    returns (next: int, built': int)
    requires NONE !in u.peers && peer != NONE && Holding(u, before, breaker, peer, said)
    modifies u`active
    ensures Chosen(u.peers, attempt, peer, next) && built' == if next == NONE then built else next
    ensures Holding(u, before, breaker, if next == NONE then peer else next, said)
  {
    next, built' := attempt.selected, built;
    if next == NONE || next == peer {
      next := SelectFailoverPeer(u.peers, attempt.available, peer);
    }
    if next != NONE {
      u.Leave(peer);
      u.Enter(next);
      built' := BuildRequestInto(next);
    }
  }

  /** Fills the buffer with the request as it goes to the peer. */
  method BuildRequestInto(peer: int) returns (built: int)
    ensures built == peer
  {
    return peer;
  }

  /** Writes what is in the buffer to the peer. */
  method WriteRequest(u: Upstream, peer: int, built: int)
    modifies u`writes
    ensures u.writes == old(u.writes) + [(peer, built)]
  {
    u.writes := u.writes + [(peer, built)];
  }

  /** Relays the response as far as it comes; its headers settle the outcome of the request. */
  method RelayResponse(u: Upstream, breaker: bool, peer: int, reported: bool, relay: Relay,
                       ghost before: Before, ghost said: Option<bool>)
    returns (reported': bool)
    requires reported == said.Some? && Holding(u, before, breaker, peer, said)
    modifies u`outcomes
    ensures reported' <==> reported || relay != LostEarly
    ensures Holding(u, before, breaker, peer, if reported || relay == LostEarly then said else Some(!relay.serverError))
  {
    reported' := reported;
    if relay != LostEarly && !reported {
      reported' := true;
      u.Report(!relay.serverError, breaker);
    }
  }

  /** The outcome of one attempt: the request is done, or goes on with another peer. */
  datatype Outcome = Done(status: Status) | GoOn(peer: int, built: int, reported: bool, onWire: bool)

  ghost predicate After(u: Upstream, before: Before, verb: Method, breaker: bool, world: nat -> Attempt, first: int,
        path: seq<int>, outcome: Outcome)
    reads u
  {
    match outcome
    case Done(status) => Ended(u, before, verb, breaker, world, first, path, status)
    case GoOn(peer, built, reported, onWire) =>
      Goes(u, before, verb, breaker, world, first, path, peer, built, reported, onWire)
  }

  /** The attempt with the last peer of the path has been made, and its response headers, if any, are reported. */
  ghost predicate Tried(u: Upstream, before: Before, verb: Method, breaker: bool, world: nat -> Attempt, path: seq<int>,
        peer: int, reported: bool)
    reads u
  {
    && path != [] && path[|path| - 1] == peer != NONE && Path(u.peers, verb, world, path[0], path)
    && reported == Verdict(world, |path|).Some? && Holding(u, before, breaker, peer, Verdict(world, |path|))
    && Logged(u, before, path, Written(world, path), [])
  }

  method GiveUp(u: Upstream, verb: Method, breaker: bool, peer: int, reported: bool,
                ghost before: Before, ghost world: nat -> Attempt, ghost path: seq<int>)
    requires Tried(u, before, verb, breaker, world, path, peer, reported) && GivesUp(u.peers, verb, world, path)
    modifies u`slots, u`active, u`outcomes
    ensures Ended(u, before, verb, breaker, world, path[0], path, UpstreamFailed)
  {
    LetGo(u, breaker, peer, reported, before, Verdict(world, |path|));
  }

  /** Goes on with another peer, if there is one. */
  method Retry(u: Upstream, verb: Method, breaker: bool, peer: int, built: int, reported: bool, onWire: bool,
               attempt: Attempt, ghost before: Before, ghost world: nat -> Attempt, ghost path: seq<int>)
    returns (next: int, built': int)
    requires NONE !in u.peers && (attempt.selected == NONE || attempt.selected in u.peers)
    requires Tried(u, before, verb, breaker, world, path, peer, reported) && |path| < 3
    requires attempt == world(|path| - 1) && Failed(attempt) && MayRepeat(verb, attempt) &&
      (!Idempotent(verb) ==> !onWire)
    modifies u`active
    ensures next == NONE ==>
      Tried(u, before, verb, breaker, world, path, peer, reported) && GivesUp(u.peers, verb, world, path)
    ensures next != NONE ==> Goes(u, before, verb, breaker, world, path[0], path, next, built', reported, onWire)
  {
    next, built' := MoveOn(u, breaker, peer, built, attempt, before, Verdict(world, |path|));
    if next != NONE {
      ChosenElsewhere(u.peers, attempt, peer, next);
      PathMore(u.peers, verb, world, path[0], path, next);
    }
  }

  /** After a failure the request moves on if it may be repeated and retries are left, and otherwise gives up. */
  method RetryOrGiveUp(
      u: Upstream, verb: Method, breaker: bool, peer: int, built: int, reported: bool, repeatable: bool, onWire: bool,
      retries: nat, attempt: Attempt, ghost before: Before, ghost world: nat -> Attempt, ghost path: seq<int>)
    returns (outcome: Outcome)
    requires NONE !in u.peers && (attempt.selected == NONE || attempt.selected in u.peers)
    requires Tried(u, before, verb, breaker, world, path, peer, reported)
    requires retries == 3 - |path| && attempt == world(|path| - 1) && Failed(attempt)
    requires repeatable <==> MayRepeat(verb, attempt)
    requires !Idempotent(verb) && repeatable ==> !onWire
    modifies u`slots, u`active, u`outcomes
    ensures After(u, before, verb, breaker, world, path[0], path, outcome)
  {
    if repeatable && retries > 0 {
      var next, built' := Retry(u, verb, breaker, peer, built, reported, onWire, attempt, before, world, path);
      if next != NONE { return GoOn(next, built', reported, onWire); }
    }
    GiveUp(u, verb, breaker, peer, reported, before, world, path);
    return Done(UpstreamFailed);
  }

  method Complete(u: Upstream, verb: Method, breaker: bool, peer: int, reported: bool, reusable: bool,
                  ghost before: Before, ghost world: nat -> Attempt, ghost path: seq<int>)
    requires Tried(u, before, verb, breaker, world, path, peer, reported)
    requires var a := world(|path| - 1); !Failed(a) && a.relay.reusable == reusable
    modifies u
    ensures Ended(u, before, verb, breaker, world, path[0], path, Completed)
  {
    if reusable {
      u.kept := u.kept + [peer];
    }
    LetGo(u, breaker, peer, reported, before, Verdict(world, |path|));
  }

  /** The request is out: its response is relayed. */
  method Finish(u: Upstream, verb: Method, breaker: bool, peer: int, built: int, reported: bool, retries: nat,
                attempt: Attempt, ghost before: Before, ghost world: nat -> Attempt, ghost path: seq<int>)
    returns (outcome: Outcome)
    requires NONE !in u.peers && (attempt.selected == NONE || attempt.selected in u.peers)
    requires Made(u, before, verb, breaker, world, path, peer, reported)
    requires retries == 3 - |path| && attempt == world(|path| - 1) && Sent(attempt)
    modifies u
    ensures After(u, before, verb, breaker, world, path[0], path, outcome)
  {
    var reported' := RelayResponse(u, breaker, peer, reported, attempt.relay, before, Verdict(world, |path| - 1));
    assert Tried(u, before, verb, breaker, world, path, peer, reported');
    if !attempt.relay.Relayed? {
      outcome := RetryOrGiveUp(
        u, verb, breaker, peer, built, reported', Idempotent(verb), false, retries, attempt, before, world, path);
      return;
    }
    Complete(u, verb, breaker, peer, reported', attempt.relay.reusable, before, world, path);
    return Done(Completed);
  }

  /** The last peer of the path has got what it gets of the request, and has not answered yet. */
  ghost predicate Made(u: Upstream, before: Before, verb: Method, breaker: bool, world: nat -> Attempt, path: seq<int>,
        peer: int, reported: bool)
    reads u
  {
    && path != [] && path[|path| - 1] == peer != NONE && Path(u.peers, verb, world, path[0], path)
    && reported == Verdict(world, |path| - 1).Some?
    && Holding(u, before, breaker, peer, Verdict(world, |path| - 1))
    && Logged(u, before, path, Written(world, path), [])
  }

  /** The attempt at a peer: a connection, if there is one, and the request on it. */
  method WriteIfConnected(
      u: Upstream, verb: Method, breaker: bool, peer: int, built: int, reported: bool, onWire: bool, attempt: Attempt,
      ghost before: Before, ghost world: nat -> Attempt, ghost first: int, ghost path: seq<int>)
    requires NONE !in u.peers && attempt == world(|path|)
    requires Goes(u, before, verb, breaker, world, first, path, peer, built, reported, onWire)
    modifies u`tried, u`writes
    ensures Made(u, before, verb, breaker, world, path + [peer], peer, reported)
  {
    ghost var course := path + [peer];
    assert course[..|path|] == path;
    u.tried := u.tried + [peer];
    if attempt.pooled || attempt.connected {
      WriteRequest(u, peer, built);
    }
  }

  /** One turn of the loop, with the request made out for the peer. */
  method TryOnce(u: Upstream, verb: Method, breaker: bool, peer: int, built: int, reported: bool, onWire: bool,
                 retries: nat, attempt: Attempt, ghost before: Before, ghost world: nat -> Attempt,
                 ghost first: int, ghost path: seq<int>)
    returns (outcome: Outcome)
    requires NONE !in u.peers && (attempt.selected == NONE || attempt.selected in u.peers)
    requires retries == 2 - |path| && attempt == world(|path|)
    requires Goes(u, before, verb, breaker, world, first, path, peer, built, reported, onWire)
    modifies u
    ensures After(u, before, verb, breaker, world, first, path + [peer], outcome)
  {
    ghost var course := path + [peer];
    assert course[0] == first && |course| == |path| + 1;
    WriteIfConnected(u, verb, breaker, peer, built, reported, onWire, attempt, before, world, first, path);
    if !attempt.pooled && !attempt.connected {
      outcome := RetryOrGiveUp(
        u, verb, breaker, peer, built, reported, !onWire || Idempotent(verb), onWire, retries, attempt, before, world,
        course);
      return;
    }
    if !attempt.written {
      outcome := RetryOrGiveUp(
        u, verb, breaker, peer, built, reported, Idempotent(verb), true, retries, attempt, before, world, course);
      return;
    }
    outcome := Finish(u, verb, breaker, peer, built, reported, retries, attempt, before, world, course);
  }

  ghost function NewlyTried(u: Upstream, before: Before): seq<int>
    reads u`tried
  {
    if |before.tried| <= |u.tried| then u.tried[|before.tried|..] else []
  }

  /**
   Over every course of events a request goes from peer to peer as its failures, the balancer and the failover lead it,
   three attempts at most, and gives up only where it must. It is written to the peer of every attempt that has a
   connection and to nobody else, reports exactly one outcome, and leaves the slot and the active count of every peer
   as it found them.
   */
  method Forward(u: Upstream, verb: Method, breaker: bool, first: int, world: nat -> Attempt) returns (status: Status)
    requires NONE !in u.peers && (first == NONE || first in u.peers)
    requires forall i :: world(i).selected == NONE || world(i).selected in u.peers
    modifies u
    ensures status == NoPeer <==> (u.limit != 0 && old(u.slots) >= u.limit) || first == NONE
    ensures status == NoPeer ==>
      Holding(u, old(Now(u)), breaker, NONE, Some(false)) && Logged(u, old(Now(u)), [], [], [])
    ensures status != NoPeer ==>
      Ended(u, old(Now(u)), verb, breaker, world, first, NewlyTried(u, old(Now(u))), status)
    ensures |u.writes| <= |old(u.writes)| + if Idempotent(verb) then 3 else 1
    ensures status == Completed ==>
      u.writes != [] && u.tried != [] && u.writes[|u.writes| - 1] == (u.tried[|u.tried| - 1], u.tried[|u.tried| - 1])
  {
    ghost var before := Now(u);
    var acquired := u.TryAcquireRequestSlot();
    if !acquired {
      u.Report(false, breaker);
      return NoPeer;
    }
    if first == NONE {
      u.ReleaseRequestSlot();
      u.Report(false, breaker);
      return NoPeer;
    }
    u.Enter(first);
    ghost var path;
    status, path := Attempts(u, verb, breaker, first, world, before);
    assert NewlyTried(u, before) == path;
    WrittenOnce(u.peers, verb, world, first, path);
    if status == Completed {
      CompletedWasWritten(world, path);
    }
  }

  method Attempts(u: Upstream, verb: Method, breaker: bool, first: int, world: nat -> Attempt, ghost before: Before)
    returns (status: Status, ghost path: seq<int>)
    requires NONE !in u.peers && first in u.peers && Holding(u, before, breaker, first, None)
    requires forall i :: world(i).selected == NONE || world(i).selected in u.peers
    requires Logged(u, before, [], [], [])
    modifies u
    ensures Ended(u, before, verb, breaker, world, first, path, status)
  {
    var peer, reported, onWire := first, false, false;
    var built := BuildRequestInto(peer);
    var retries: nat := 2;
    path := [];
    while true
      invariant retries == 2 - |path| &&
        Goes(u, before, verb, breaker, world, first, path, peer, built, reported, onWire)
      decreases retries
    {
      var outcome := TryOnce(
        u, verb, breaker, peer, built, reported, onWire, retries, world(2 - retries), before, world, first, path);
      path := path + [peer];
      if outcome.Done? { return outcome.status, path; }
      peer, built, reported, onWire := outcome.peer, outcome.built, outcome.reported, outcome.onWire;
      assert |path + [peer]| <= 3;
      retries := retries - 1;
    }
  }
}
