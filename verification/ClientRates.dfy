/**
 What the limiter does to one client: among all the others, and although its bucket may be forgotten and made again,
 the client is treated as by a single bucket of its own.
 */
module ClientRates {

  import opened RateLimiter

  datatype Answer = Answer(call: Call, verdict: Verdict)

  /** The answers a client got, in order, leaving out where there was no room for it. */
  function Mine(calls: seq<Call>, vs: seq<Verdict>, ip: string): seq<Answer>
    requires |calls| == |vs|
  {
    if calls == [] then []
    else
      var rest := Mine(calls[1..], vs[1..], ip);
      if calls[0].ip == ip && vs[0] != NoRoom then [Answer(calls[0], vs[0])] + rest else rest
  }

  lemma MineFirst(calls: seq<Call>, vs: seq<Verdict>, ip: string)
    requires |calls| == |vs| && calls != [] && calls[0].ip == ip && vs[0] != NoRoom
    ensures var mine := Mine(calls, vs, ip);
      mine != [] && mine[0] == Answer(calls[0], vs[0]) && mine[1..] == Mine(calls[1..], vs[1..], ip)
  {
  }

  /** These are the answers of one bucket, which nobody else uses. */
  predicate AnswersOf(c: Limit, b: Bucket, answers: seq<Answer>)
    decreases |answers|
  {
    answers == [] ||
    (var now := answers[0].call.consuming;
     && answers[0].verdict == (if Accepts(c, b, now) then Accept else Refuse)
     && AnswersOf(c, Consumed(c, b, now), answers[1..]))
  }

  /** The client's bucket is `b`, or `b` was full when it was forgotten. */
  ghost predicate Follows(p: Policy, l: Limiter, ip: string, b: Bucket, now: nat) {
    if ip in l.buckets then l.buckets[ip] == b else Forgotten(p, b, now)
  }

  lemma FollowsLater(p: Policy, l: Limiter, ip: string, b: Bucket, now: nat, later: nat)
    requires Follows(p, l, ip, b, now) && now <= later
    ensures Follows(p, l, ip, b, later)
  {
    if ip !in l.buckets {
      var t: nat :| t <= now && p.forget(b, t);
      assert t <= later;
    }
  }

  lemma MadeRoomFollows(p: Policy, l: Limiter, ip: string, b: Bucket, now: nat)
    requires Follows(p, l, ip, b, now)
    ensures Follows(p, MadeRoom(p, l, now), ip, b, now)
  {
    if ip in l.buckets && ip !in MadeRoom(p, l, now).buckets {
      assert p.forget(b, now);
    }
  }

  /** Nobody else's call touches a client's bucket, unless it is full. */
  lemma OthersCall(p: Policy, l: Limiter, call: Call, since: nat, ip: string, b: Bucket)
    requires Follows(p, l, ip, b, since) && since <= call.evicting <= call.consuming && call.ip != ip
    ensures Follows(p, Allow(p, l, call).0, ip, b, call.consuming)
  {
    FollowsLater(p, l, ip, b, since, call.evicting);
    MadeRoomFollows(p, l, ip, b, call.evicting);
    FollowsLater(p, MadeRoom(p, l, call.evicting), ip, b, call.evicting, call.consuming);
    FollowsLater(p, l, ip, b, since, call.consuming);
  }

  /** A client's own call is answered by its bucket, or not at all. */
  lemma OwnCall(p: Policy, l: Limiter, call: Call, since: nat, b: Bucket)
    requires SafeTest(p.limit, p.forget) && Follows(p, l, call.ip, b, since)
    requires since <= call.evicting <= call.creating <= call.consuming
    ensures var (m, v) := Allow(p, l, call);
      && (v == NoRoom ==> Follows(p, m, call.ip, b, call.consuming))
      && (v != NoRoom ==>
            && v == Judged(p, b, call.consuming)
            && Follows(p, m, call.ip, Consumed(p.limit, b, call.consuming), call.consuming))
  {
    if call.ip !in l.buckets {
      FollowsLater(p, l, call.ip, b, since, call.evicting);
      MadeRoomFollows(p, l, call.ip, b, call.evicting);
      var m := MadeRoom(p, l, call.evicting);
      assert call.ip !in m.buckets;
      FollowsLater(p, m, call.ip, b, call.evicting, call.consuming);
      NewcomerSame(p, b, call.creating, call.consuming);
    }
  }

  lemma {:induction false} BucketAnswers(p: Policy, l: Limiter, calls: seq<Call>, since: nat, ip: string, b: Bucket)
    requires SafeTest(p.limit, p.forget) && InTime(calls, since) && Follows(p, l, ip, b, since)
    ensures AnswersOf(p.limit, b, Mine(calls, Verdicts(p, l, calls), ip))
    decreases |calls|
  {
    if calls != [] {
      var call, rest := calls[0], calls[1..];
      var (m, v) := Allow(p, l, call);
      assert Verdicts(p, l, calls)[1..] == Verdicts(p, m, rest);
      if call.ip != ip {
        OthersCall(p, l, call, since, ip, b);
        BucketAnswers(p, m, rest, call.consuming, ip, b);
      } else {
        OwnCall(p, l, call, since, b);
        if v == NoRoom {
          BucketAnswers(p, m, rest, call.consuming, ip, b);
        } else {
          BucketAnswers(p, m, rest, call.consuming, ip, Consumed(p.limit, b, call.consuming));
          MineFirst(calls, Verdicts(p, l, calls), ip);
        }
      }
    }
  }

  /** A client that is not known starts with the bucket made at the first call for which there is room. */
  lemma {:induction false} NewcomerAnswers(p: Policy, l: Limiter, calls: seq<Call>, since: nat, ip: string)
    requires SafeTest(p.limit, p.forget) && InTime(calls, since) && ip !in l.buckets
    ensures var mine := Mine(calls, Verdicts(p, l, calls), ip);
      mine == [] || AnswersOf(p.limit, Fresh(p.limit, mine[0].call.creating), mine)
    decreases |calls|
  {
    if calls != [] {
      var call, rest := calls[0], calls[1..];
      var (m, v) := Allow(p, l, call);
      assert Verdicts(p, l, calls)[1..] == Verdicts(p, m, rest);
      if call.ip != ip || v == NoRoom {
        NewcomerAnswers(p, m, rest, call.consuming, ip);
      } else {
        var b := Consumed(p.limit, Fresh(p.limit, call.creating), call.consuming);
        assert m.buckets[ip] == b && v == Judged(p, Fresh(p.limit, call.creating), call.consuming);
        BucketAnswers(p, m, rest, call.consuming, ip, b);
        MineFirst(calls, Verdicts(p, l, calls), ip);
      }
    }
  }

  /**
   The answers a client gets are those of a single bucket, made at the first call for which there was room: whoever
   else calls, and however often the limiter forgets that client.
   */
  lemma OneBucketEach(rate: real, burst: real, cap: nat, calls: seq<Call>, ip: string)
    requires rate >= 0.0 && burst >= 0.0 && InTime(calls, 0)
    ensures var mine := Mine(calls, Verdicts(PolicyOf(rate, burst, cap), Limiter(map[], 0), calls), ip);
      var c := LimitOf(rate, burst);
      mine == [] || AnswersOf(c, Fresh(c, mine[0].call.creating), mine)
  {
    RefilledIsSafe(rate, burst);
    NewcomerAnswers(PolicyOf(rate, burst, cap), Limiter(map[], 0), calls, 0, ip);
  }

  // ----- Every client keeps to the rate -----

  function Times(answers: seq<Answer>): seq<nat> {
    seq(|answers|, i requires 0 <= i < |answers| => answers[i].call.consuming)
  }

  function Granted(answers: seq<Answer>): nat {
    if answers == [] then 0 else (if answers[0].verdict == Accept then 1 else 0) + Granted(answers[1..])
  }

  lemma {:induction false} GrantedIs(c: Limit, b: Bucket, answers: seq<Answer>)
    requires AnswersOf(c, b, answers)
    ensures Granted(answers) == Accepted(c, b, Times(answers))
    decreases |answers|
  {
    if answers != [] {
      assert Times(answers)[1..] == Times(answers[1..]);
      GrantedIs(c, Consumed(c, b, answers[0].call.consuming), answers[1..]);
    }
  }

  lemma {:induction false} FirstAnswers(c: Limit, b: Bucket, answers: seq<Answer>, j: nat)
    requires AnswersOf(c, b, answers) && j <= |answers|
    ensures AnswersOf(c, b, answers[..j])
    decreases |answers|
  {
    if j > 0 {
      assert answers[..j][1..] == answers[1..][..j - 1];
      FirstAnswers(c, Consumed(c, b, answers[0].call.consuming), answers[1..], j - 1);
    }
  }

  lemma {:induction false} LastAnswers(c: Limit, b: Bucket, answers: seq<Answer>, i: nat) returns (left: Bucket)
    requires AnswersOf(c, b, answers) && Monotone(b.last, Times(answers)) && i <= |answers|
    ensures AnswersOf(c, left, answers[i..]) && Monotone(left.last, Times(answers[i..]))
    decreases |answers|
  {
    if i == 0 {
      assert answers[0..] == answers;
      left := b;
    } else {
      assert Times(answers)[1..] == Times(answers[1..]) && answers[1..][i - 1..] == answers[i..];
      left := LastAnswers(c, Consumed(c, b, answers[0].call.consuming), answers[1..], i - 1);
    }
  }

  lemma {:induction false} FirstTimes(last: nat, times: seq<nat>, j: nat)
    requires Monotone(last, times) && j <= |times|
    ensures Monotone(last, times[..j])
    decreases |times|
  {
    if j > 0 {
      assert times[..j][1..] == times[1..][..j - 1];
      FirstTimes(times[0], times[1..], j - 1);
    }
  }

  lemma {:induction false} MineInTime(calls: seq<Call>, vs: seq<Verdict>, ip: string, since: nat)
    requires |calls| == |vs| && InTime(calls, since)
    ensures Monotone(since, Times(Mine(calls, vs, ip)))
    ensures Mine(calls, vs, ip) != [] ==>
      var call := Mine(calls, vs, ip)[0].call; since <= call.creating <= call.consuming
    decreases |calls|
  {
    if calls != [] {
      var rest := Mine(calls[1..], vs[1..], ip);
      MineInTime(calls[1..], vs[1..], ip, calls[0].consuming);
      if calls[0].ip == ip && vs[0] != NoRoom {
        assert Times(Mine(calls, vs, ip))[1..] == Times(rest);
      } else {
        assert Mine(calls, vs, ip) == rest;
        Later(since, calls[0].consuming, Times(rest));
      }
    }
  }

  lemma Later(since: nat, next: nat, times: seq<nat>)
    requires since <= next && Monotone(next, times)
    ensures Monotone(since, times)
  {
  }

  lemma AnswersWithinRate(rate: real, burst: real, b: Bucket, answers: seq<Answer>)
    requires rate >= 0.0 && burst >= 0.0 && AnswersOf(LimitOf(rate, burst), b, answers)
    requires Monotone(b.last, Times(answers)) && answers != []
    ensures var d := answers[|answers| - 1].call.consuming - answers[0].call.consuming;
      d >= 0 && Granted(answers) as real <= Allowance(rate, burst, d)
  {
    var times := Times(answers);
    GrantedIs(LimitOf(rate, burst), b, answers);
    WithinRate(rate, burst, b, times);
    assert LastOf(times[0], times[1..]) == times[|times| - 1];
  }

  lemma TimesOfFirst(answers: seq<Answer>, j: nat)
    requires j <= |answers|
    ensures Times(answers)[..j] == Times(answers[..j])
  {
  }

  /** A stretch of a bucket's answers is what a bucket in some condition answers. */
  lemma Stretch(c: Limit, b: Bucket, answers: seq<Answer>, i: nat, j: nat) returns (left: Bucket)
    requires AnswersOf(c, b, answers) && Monotone(b.last, Times(answers)) && i <= j <= |answers|
    ensures AnswersOf(c, left, answers[i..j]) && Monotone(left.last, Times(answers[i..j]))
  {
    left := LastAnswers(c, b, answers, i);
    var tail := answers[i..];
    assert tail[..j - i] == answers[i..j];
    FirstAnswers(c, left, tail, j - i);
    FirstTimes(left.last, Times(tail), j - i);
    TimesOfFirst(tail, j - i);
  }

  lemma StartsLater(start: nat, times: seq<nat>)
    requires times != [] && Monotone(0, times) && start <= times[0]
    ensures Monotone(start, times)
  {
  }

  lemma MineWithinRate(rate: real, burst: real, b: Bucket, mine: seq<Answer>, i: nat, j: nat)
    requires rate >= 0.0 && burst >= 0.0 && i < j <= |mine| && Monotone(b.last, Times(mine))
    requires AnswersOf(LimitOf(rate, burst), b, mine)
    ensures var d := mine[j - 1].call.consuming - mine[i].call.consuming;
      d >= 0 && Granted(mine[i..j]) as real <= Allowance(rate, burst, d)
  {
    var left := Stretch(LimitOf(rate, burst), b, mine, i, j);
    var stretch := mine[i..j];
    assert stretch[0] == mine[i] && stretch[|stretch| - 1] == mine[j - 1];
    AnswersWithinRate(rate, burst, left, stretch);
  }

  /**
   Between any two of its calls a client is granted at most the burst and what the rate yields in that time, whatever
   the others do and whatever the limiter forgets.
   */
  lemma ClientWithinRate(rate: real, burst: real, cap: nat, calls: seq<Call>, ip: string, i: nat, j: nat)
    requires rate >= 0.0 && burst >= 0.0 && InTime(calls, 0)
    requires var mine := Mine(calls, Verdicts(PolicyOf(rate, burst, cap), Limiter(map[], 0), calls), ip);
      i < j <= |mine|
    ensures var mine := Mine(calls, Verdicts(PolicyOf(rate, burst, cap), Limiter(map[], 0), calls), ip);
      var d := mine[j - 1].call.consuming - mine[i].call.consuming;
      d >= 0 && Granted(mine[i..j]) as real <= Allowance(rate, burst, d)
  {
    var vs := Verdicts(PolicyOf(rate, burst, cap), Limiter(map[], 0), calls);
    var mine := Mine(calls, vs, ip);
    OneBucketEach(rate, burst, cap, calls, ip);
    MineInTime(calls, vs, ip, 0);
    StartsLater(mine[0].call.creating, Times(mine));
    MineWithinRate(rate, burst, Fresh(LimitOf(rate, burst), mine[0].call.creating), mine, i, j);
  }

  // ----- The cap -----

  function Served(p: Policy, l: Limiter, calls: seq<Call>): Limiter {
    if calls == [] then l else Allow(p, Served(p, l, calls[..|calls| - 1]), calls[|calls| - 1]).0
  }

  lemma {:induction false} FewerKeys(a: set<string>, b: set<string>)
    requires a <= b
    ensures |a| <= |b|
  {
    assert b == a + (b - a);
  }

  lemma MadeRoomSmaller(p: Policy, l: Limiter, now: nat)
    ensures |MadeRoom(p, l, now).buckets| <= |l.buckets|
  {
    FewerKeys(MadeRoom(p, l, now).buckets.Keys, l.buckets.Keys);
  }

  lemma UsedGrows(p: Policy, l: Limiter, call: Call, b: Bucket)
    ensures |Used(p, l, call, b).buckets| == |l.buckets| + if call.ip in l.buckets then 0 else 1
  {
    var m := Used(p, l, call, b).buckets;
    if call.ip in l.buckets {
      assert m.Keys == l.buckets.Keys;
    } else {
      assert m.Keys == l.buckets.Keys + {call.ip};
    }
  }

  /** In every run a limiter with a cap keeps no more buckets than that. */
  lemma {:induction false} CapHolds(p: Policy, calls: seq<Call>)
    ensures p.cap != 0 ==> |Served(p, Limiter(map[], 0), calls).buckets| <= p.cap
  {
    if calls != [] {
      var l, call := Served(p, Limiter(map[], 0), calls[..|calls| - 1]), calls[|calls| - 1];
      CapHolds(p, calls[..|calls| - 1]);
      if call.ip in l.buckets {
        UsedGrows(p, l, call, l.buckets[call.ip]);
      } else {
        MadeRoomSmaller(p, l, call.evicting);
        UsedGrows(p, MadeRoom(p, l, call.evicting), call, Fresh(p.limit, call.creating));
      }
    }
  }

  lemma NothingForgotten(p: Policy, l: Limiter, now: nat)
    requires now - l.lastEvict >= EVICT_INTERVAL
    ensures |Evicted(p, l, now).buckets| == |l.buckets| <==>
      forall ip :: ip in l.buckets ==> !p.forget(l.buckets[ip], now)
  {
    var m := Evicted(p, l, now).buckets;
    if ip :| ip in l.buckets && p.forget(l.buckets[ip], now) {
      assert ip !in m;
      FewerKeys(m.Keys, l.buckets.Keys - {ip});
    } else {
      assert m.Keys == l.buckets.Keys;
    }
  }

  /**
   There is no room for a client exactly if it is unknown, as many others are known as the cap allows, and none of them
   can be forgotten: none is full again, or the last sweep is less than an interval ago.
   */
  lemma NoRoomIff(p: Policy, calls: seq<Call>, call: Call)
    ensures var l := Served(p, Limiter(map[], 0), calls);
      Allow(p, l, call).1 == NoRoom <==>
        && p.cap != 0 && call.ip !in l.buckets && |l.buckets| == p.cap
        && (call.evicting - l.lastEvict < EVICT_INTERVAL ||
            forall ip :: ip in l.buckets ==> !p.forget(l.buckets[ip], call.evicting))
  {
    var l := Served(p, Limiter(map[], 0), calls);
    CapHolds(p, calls);
    MadeRoomSmaller(p, l, call.evicting);
    if call.evicting - l.lastEvict >= EVICT_INTERVAL {
      NothingForgotten(p, l, call.evicting);
    }
  }
}
