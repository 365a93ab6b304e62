/**
 Token buckets and the per-client limiter that forgets idle ones. Rates and bursts are exact reals; time is in
 milliseconds.
 */
module RateLimiter {

  const SCALE: nat := 1_000_000
  const EVICT_INTERVAL: nat := 1000

  /** What a span of time earns, and the most a bucket holds, both in millionths of a token. */
  datatype Limit = Limit(earn: nat -> real, full: nat)

  ghost predicate Sensible(c: Limit) {
    forall d: nat :: c.earn(d) >= 0.0
  }

  /** A rate in tokens per second and a burst in tokens. */
  function LimitOf(rate: real, burst: real): Limit
    requires rate >= 0.0 && burst >= 0.0
  {
    Limit((d: nat) => Earned(rate, d), (burst * 1000000.0).Floor)
  }

  function Earned(rate: real, d: nat): real {
    (d as real) * rate * 1000.0
  }

  lemma EarnedSign(rate: real, d: nat)
    requires rate >= 0.0
    ensures Earned(rate, d) >= 0.0
  {
  }

  lemma EarnedAdds(rate: real, d: nat, e: nat)
    ensures Earned(rate, d) + Earned(rate, e) == Earned(rate, d + e)
  {
  }

  lemma LimitSensible(rate: real, burst: real)
    requires rate >= 0.0 && burst >= 0.0
    ensures Sensible(LimitOf(rate, burst))
  {
    forall d: nat ensures LimitOf(rate, burst).earn(d) >= 0.0 {
      EarnedSign(rate, d);
    }
  }

  /** The balance is in millionths of a token. */
  datatype Bucket = Bucket(tokens: nat, last: nat)

  function Fresh(c: Limit, now: nat): Bucket {
    Bucket(c.full, now)
  }

  function Refill(c: Limit, elapsed: nat): nat {
    var e := c.earn(elapsed).Floor;
    if e < 0 then 0 else e
  }

  /** The balance at time `now`, before anything is taken. */
  function Balance(c: Limit, b: Bucket, now: nat): nat {
    var grown := b.tokens + Refill(c, if now > b.last then now - b.last else 0);
    if grown > c.full then c.full else grown
  }

  function Accepts(c: Limit, b: Bucket, now: nat): bool {
    Balance(c, b, now) >= SCALE
  }

  function Consumed(c: Limit, b: Bucket, now: nat): Bucket {
    Bucket(Balance(c, b, now) - (if Accepts(c, b, now) then SCALE else 0), now)
  }

  // ----- A bucket keeps to its rate -----

  predicate Monotone(last: nat, times: seq<nat>)
    decreases |times|
  {
    times == [] || (last <= times[0] && Monotone(times[0], times[1..]))
  }

  /** How many of the calls at these times are accepted. */
  function Accepted(c: Limit, b: Bucket, times: seq<nat>): nat
    decreases |times|
  {
    if times == [] then 0
    else (if Accepts(c, b, times[0]) then 1 else 0) + Accepted(c, Consumed(c, b, times[0]), times[1..])
  }

  /** What is earned from one call to the next. */
  function EarnedBy(c: Limit, last: nat, times: seq<nat>): real
    requires Monotone(last, times)
    decreases |times|
  {
    if times == [] then 0.0 else c.earn(times[0] - last) + EarnedBy(c, times[0], times[1..])
  }

  lemma OneCall(c: Limit, b: Bucket, now: nat)
    requires Sensible(c) && b.last <= now
    ensures (Consumed(c, b, now).tokens + if Accepts(c, b, now) then SCALE else 0) as real
         <= (b.tokens as real) + c.earn(now - b.last)
    ensures Consumed(c, b, now).tokens + (if Accepts(c, b, now) then SCALE else 0) <= c.full
  {
    assert c.earn(now - b.last) >= 0.0;
  }

  lemma Totals(first: nat, rest: nat, mid: nat, had: real, earned: real)
    requires (mid + if first == 1 then SCALE else 0) as real <= had && first <= 1 &&
      (rest * SCALE) as real <= (mid as real) + earned
    ensures ((first + rest) * SCALE) as real <= had + earned
  {
  }

  /** What was given never exceeds what was there and what has been earned since. */
  lemma {:induction false} Conserved(c: Limit, b: Bucket, times: seq<nat>)
    requires Sensible(c) && Monotone(b.last, times)
    ensures (Accepted(c, b, times) * SCALE) as real <= (b.tokens as real) + EarnedBy(c, b.last, times)
    decreases |times|
  {
    if times != [] {
      var m, rest := Consumed(c, b, times[0]), times[1..];
      OneCall(c, b, times[0]);
      Conserved(c, m, rest);
      Totals(if Accepts(c, b, times[0]) then 1 else 0, Accepted(c, m, rest), m.tokens,
        (b.tokens as real) + c.earn(times[0] - b.last), EarnedBy(c, times[0], rest));
    }
  }

  /** From the first call on, a full bucket and what has been earned since bound what was given. */
  lemma FromFull(c: Limit, b: Bucket, times: seq<nat>)
    requires Sensible(c) && Monotone(b.last, times) && times != []
    ensures (Accepted(c, b, times) * SCALE) as real <= (c.full as real) + EarnedBy(c, times[0], times[1..])
  {
    var m, rest := Consumed(c, b, times[0]), times[1..];
    OneCall(c, b, times[0]);
    Conserved(c, m, rest);
    var first := if Accepts(c, b, times[0]) then 1 else 0;
    Totals(first, Accepted(c, m, rest), m.tokens, c.full as real, EarnedBy(c, times[0], rest));
  }

  function LastOf(t: nat, rest: seq<nat>): nat {
    if rest == [] then t else rest[|rest| - 1]
  }

  lemma {:induction false} EarnedInAll(rate: real, burst: real, t: nat, rest: seq<nat>)
    requires rate >= 0.0 && burst >= 0.0 && Monotone(t, rest)
    ensures LastOf(t, rest) >= t && EarnedBy(LimitOf(rate, burst), t, rest) == Earned(rate, LastOf(t, rest) - t)
    decreases |rest|
  {
    if rest != [] {
      EarnedInAll(rate, burst, rest[0], rest[1..]);
      EarnedAdds(rate, rest[0] - t, LastOf(rest[0], rest[1..]) - rest[0]);
    }
  }

  /** A burst and what the rate yields in `d` milliseconds, in tokens. */
  function Allowance(rate: real, burst: real, d: nat): real {
    burst + (d as real) * rate / 1000.0
  }

  lemma Scaled(n: nat, full: nat, rate: real, burst: real, d: nat)
    requires full as real <= burst * 1000000.0 && (n * SCALE) as real <= (full as real) + Earned(rate, d)
    ensures n as real <= Allowance(rate, burst, d)
  {
  }

  lemma FullIs(rate: real, burst: real)
    requires rate >= 0.0 && burst >= 0.0
    ensures LimitOf(rate, burst).full as real <= burst * 1000000.0
  {
  }

  /**
   In any window a bucket accepts at most its burst and what its rate yields in that time, whatever happened before: the
   calls at these times, from the first to the last, on a bucket in any condition.
   */
  lemma WithinRate(rate: real, burst: real, b: Bucket, times: seq<nat>)
    requires rate >= 0.0 && burst >= 0.0 && times != [] && Monotone(b.last, times)
    ensures var d := LastOf(times[0], times[1..]) - times[0];
      d >= 0 && Accepted(LimitOf(rate, burst), b, times) as real <= Allowance(rate, burst, d)
  {
    LimitSensible(rate, burst);
    FullIs(rate, burst);
    EarnedInAll(rate, burst, times[0], times[1..]);
    InWindow(LimitOf(rate, burst), rate, burst, b, times);
  }

  lemma InWindow(c: Limit, rate: real, burst: real, b: Bucket, times: seq<nat>)
    requires Sensible(c) && c.full as real <= burst * 1000000.0 && times != [] && Monotone(b.last, times)
    requires var d := LastOf(times[0], times[1..]) - times[0];
      d >= 0 && EarnedBy(c, times[0], times[1..]) == Earned(rate, d)
    ensures Accepted(c, b, times) as real <= Allowance(rate, burst, LastOf(times[0], times[1..]) - times[0])
  {
    FromFull(c, b, times);
    Scaled(Accepted(c, b, times), c.full, rate, burst, LastOf(times[0], times[1..]) - times[0]);
  }

  /** A client that waits long enough for a whole token is never refused, however its bucket was left. */
  lemma SpacedCallAccepted(rate: real, burst: real, b: Bucket, now: nat)
    requires rate >= 0.0 && burst >= 1.0 && now > b.last && ((now - b.last) as real) * rate >= 1000.0
    ensures Accepts(LimitOf(rate, burst), b, now)
  {
    var c, e := LimitOf(rate, burst), ((now - b.last) as real) * rate;
    assert e * 1000.0 >= 1000000.0;
    assert c.earn(now - b.last) == Earned(rate, now - b.last) >= 1000000.0;
    assert burst * 1000000.0 >= 1000000.0;
  }

  // ----- What truncation costs -----

  /** The bucket after calls at these times. */
  function After(c: Limit, b: Bucket, times: seq<nat>): Bucket
    decreases |times|
  {
    if times == [] then b else After(c, Consumed(c, b, times[0]), times[1..])
  }

  /** No refill of these calls is cut at the burst. */
  predicate Uncut(c: Limit, b: Bucket, times: seq<nat>)
    requires Monotone(b.last, times)
    decreases |times|
  {
    times == [] ||
    (b.tokens + Refill(c, times[0] - b.last) <= c.full && Uncut(c, Consumed(c, b, times[0]), times[1..]))
  }

  lemma OneCallLoses(c: Limit, b: Bucket, now: nat)
    requires Sensible(c) && b.last <= now && b.tokens + Refill(c, now - b.last) <= c.full
    ensures (Consumed(c, b, now).tokens + if Accepts(c, b, now) then SCALE else 0) as real
          > (b.tokens as real) + c.earn(now - b.last) - 1.0
    ensures Consumed(c, b, now).last == now
  {
    assert c.earn(0) >= 0.0 && c.earn(now - b.last) >= 0.0;
  }

  lemma Losses(first: nat, rest: nat, mid: nat, end: nat, had: real, earned: real, n: nat)
    requires (mid + if first == 1 then SCALE else 0) as real > had - 1.0 && first <= 1
    requires (rest * SCALE + end) as real >= (mid as real) + earned - (n as real)
    ensures ((first + rest) * SCALE + end) as real > had + earned - ((n + 1) as real)
  {
  }

  lemma {:induction false} CallsLose(c: Limit, b: Bucket, times: seq<nat>)
    requires Sensible(c) && Monotone(b.last, times) && Uncut(c, b, times)
    ensures (Accepted(c, b, times) * SCALE + After(c, b, times).tokens) as real
         >= (b.tokens as real) + EarnedBy(c, b.last, times) - (|times| as real)
    ensures times != [] ==>
      (Accepted(c, b, times) * SCALE + After(c, b, times).tokens) as real
         > (b.tokens as real) + EarnedBy(c, b.last, times) - (|times| as real)
    decreases |times|
  {
    if times != [] {
      var m, rest := Consumed(c, b, times[0]), times[1..];
      OneCallLoses(c, b, times[0]);
      CallsLose(c, m, rest);
      Losses(if Accepts(c, b, times[0]) then 1 else 0, Accepted(c, m, rest), m.tokens, After(c, m, rest).tokens,
        (b.tokens as real) + c.earn(times[0] - b.last), EarnedBy(c, times[0], rest), |rest|);
    }
  }

  /**
   Calls over `d` milliseconds, however they are spaced, lose less than a millionth of a token each: what they are given
   and what is left exceeds what was there and what the rate yields in that time by more than minus that.
   */
  lemma PollingLoses(rate: real, burst: real, b: Bucket, times: seq<nat>)
    requires rate >= 0.0 && burst >= 0.0 && times != [] && Monotone(b.last, times)
    requires Uncut(LimitOf(rate, burst), b, times)
    ensures var c, d := LimitOf(rate, burst), LastOf(b.last, times) - b.last;
      && d >= 0
      && (Accepted(c, b, times) * SCALE + After(c, b, times).tokens) as real
         > (b.tokens as real) + Earned(rate, d) - (|times| as real)
  {
    LimitSensible(rate, burst);
    CallsLose(LimitOf(rate, burst), b, times);
    EarnedInAll(rate, burst, b.last, times);
  }

  /** Calls every `step` milliseconds. */
  function Every(start: nat, step: nat, n: nat): seq<nat>
    decreases n
  {
    if n == 0 then [] else [start + step] + Every(start + step, step, n - 1)
  }

  lemma {:induction false} PolledInVain(c: Limit, b: Bucket, step: nat, n: nat)
    requires Refill(c, step) == 0 && b.tokens < SCALE && Refill(c, 0) == 0
    ensures Accepted(c, b, Every(b.last, step, n)) == 0
    decreases n
  {
    if n > 0 {
      var times := Every(b.last, step, n);
      assert times[0] == b.last + step && times[1..] == Every(b.last + step, step, n - 1);
      PolledInVain(c, Consumed(c, b, b.last + step), step, n - 1);
    }
  }

  lemma {:induction false} PolledServed(c: Limit, b: Bucket, step: nat, n: nat)
    requires step > 0 && Refill(c, step) >= 1 && c.full >= SCALE && n > 0 && n + b.tokens >= SCALE
    ensures Accepted(c, b, Every(b.last, step, n)) > 0
    decreases n
  {
    var now := b.last + step;
    var times := Every(b.last, step, n);
    assert times[0] == now && times[1..] == Every(now, step, n - 1);
    if !Accepts(c, b, now) {
      PolledServed(c, Consumed(c, b, now), step, n - 1);
    }
  }

  /**
   A client that polls an empty bucket every `step` milliseconds is ever served exactly if one step yields a
   millionth of a token: below that every poll throws away what has been earned since the last.
   */
  lemma PollingServedIff(rate: real, burst: real, start: nat, step: nat)
    requires rate >= 0.0 && burst >= 1.0 && step > 0
    ensures (exists n :: Accepted(LimitOf(rate, burst), Bucket(0, start), Every(start, step, n)) > 0) <==>
      Earned(rate, step) >= 1.0
  {
    var c, b := LimitOf(rate, burst), Bucket(0, start);
    assert burst * 1000000.0 >= 1000000.0;
    assert c.earn(step) == Earned(rate, step) && c.earn(0) == Earned(rate, 0) == 0.0;
    EarnedSign(rate, step);
    if Earned(rate, step) >= 1.0 {
      PolledServed(c, b, step, SCALE);
    } else {
      forall n: nat ensures Accepted(c, b, Every(start, step, n)) == 0 {
        PolledInVain(c, b, step, n);
      }
    }
  }

  /** Polled every millisecond, a bucket below a thousandth of a token per second never gives anything. */
  lemma SlowBucketStarves(rate: real, burst: real, start: nat, n: nat)
    requires 0.0 <= rate < 0.001 && burst >= 1.0
    ensures Accepted(LimitOf(rate, burst), Bucket(0, start), Every(start, 1, n)) == 0
  {
    PollingServedIff(rate, burst, start, 1);
    assert Earned(rate, 1) < 1.0;
  }

  // ----- Forgetting full buckets -----

  /** The bucket is certainly full again: the time since its last use is enough to earn a burst. */
  predicate RefilledToFull(rate: real, burst: real, b: Bucket, now: nat) {
    rate > 0.0 && now > b.last && (now - b.last) as real >= (burst / rate) * 1000.0
  }

  /** The owner's test for a bucket that may be forgotten: from then on its refill is a full bucket. */
  ghost predicate SafeTest(c: Limit, test: (Bucket, nat) -> bool) {
    forall b: Bucket, now: nat, later: nat :: test(b, now) && now <= later ==> Sated(c, b, later)
  }

  predicate Sated(c: Limit, b: Bucket, later: nat) {
    later > b.last && Refill(c, later - b.last) >= c.full
  }

  lemma EarnedBurst(rate: real, burst: real, elapsed: nat)
    requires rate > 0.0 && burst >= 0.0 && elapsed as real >= (burst / rate) * 1000.0
    ensures Earned(rate, elapsed) >= burst * 1000000.0
  {
    var e := elapsed as real;
    assert e * rate >= (burst / rate) * 1000.0 * rate == burst * 1000.0;
  }

  /** Enough time for a burst refills any bucket. */
  lemma RefilledIsSafe(rate: real, burst: real)
    requires rate >= 0.0 && burst >= 0.0
    ensures SafeTest(LimitOf(rate, burst), (b: Bucket, now: nat) => RefilledToFull(rate, burst, b, now))
  {
    var c := LimitOf(rate, burst);
    forall b: Bucket, now: nat, later: nat | RefilledToFull(rate, burst, b, now) && now <= later
      ensures Sated(c, b, later)
    {
      EarnedBurst(rate, burst, later - b.last);
    }
  }

  /** Once full, a bucket is full at every later time, like a fresh one. */
  lemma FullIsFresh(c: Limit, b: Bucket, created: nat, later: nat)
    requires Sated(c, b, later) && created <= later
    ensures Consumed(c, b, later) == Consumed(c, Fresh(c, created), later)
    ensures Accepts(c, b, later) == Accepts(c, Fresh(c, created), later)
  {
  }

  type Buckets = map<string, Bucket>

  /** How a limiter treats its clients; a cap of zero is none. */
  datatype Policy = Policy(limit: Limit, forget: (Bucket, nat) -> bool, cap: nat)

  function PolicyOf(rate: real, burst: real, cap: nat): Policy
    requires rate >= 0.0 && burst >= 0.0
  {
    Policy(LimitOf(rate, burst), (b: Bucket, now: nat) => RefilledToFull(rate, burst, b, now), cap)
  }

  /** A request of a client, with the three readings of the clock that handling it may take, in this order. */
  datatype Call = Call(ip: string, evicting: nat, creating: nat, consuming: nat)

  datatype Limiter = Limiter(buckets: Buckets, lastEvict: nat)

  datatype Verdict = Accept | Refuse | NoRoom

  function Evicted(p: Policy, l: Limiter, now: nat): Limiter {
    if now - l.lastEvict < EVICT_INTERVAL then l
    else Limiter(map ip | ip in l.buckets && !p.forget(l.buckets[ip], now) :: l.buckets[ip], now)
  }

  function Judged(p: Policy, b: Bucket, now: nat): Verdict {
    if Accepts(p.limit, b, now) then Accept else Refuse
  }

  /** What is left of the limiter when room has been made for a new client, as far as possible. */
  function MadeRoom(p: Policy, l: Limiter, now: nat): Limiter {
    if p.cap != 0 && |l.buckets| >= p.cap then Evicted(p, l, now) else l
  }

  predicate Crowded(p: Policy, l: Limiter) {
    p.cap != 0 && |l.buckets| >= p.cap
  }

  /** The client's bucket is used, and kept as it is then. */
  function Used(p: Policy, l: Limiter, call: Call, b: Bucket): Limiter {
    l.(buckets := l.buckets[call.ip := Consumed(p.limit, b, call.consuming)])
  }

  function Allow(p: Policy, l: Limiter, call: Call): (Limiter, Verdict) {
    if call.ip in l.buckets then
      (Used(p, l, call, l.buckets[call.ip]), Judged(p, l.buckets[call.ip], call.consuming))
    else
      var m, b := MadeRoom(p, l, call.evicting), Fresh(p.limit, call.creating);
      if Crowded(p, m) then (m, NoRoom) else (Used(p, m, call, b), Judged(p, b, call.consuming))
  }

  function Verdicts(p: Policy, l: Limiter, calls: seq<Call>): (vs: seq<Verdict>)
    ensures |vs| == |calls|
    decreases |calls|
  {
    if calls == [] then []
    else
      var (m, v) := Allow(p, l, calls[0]);
      [v] + Verdicts(p, m, calls[1..])
  }

  /** The clock never goes back, from one reading to the next. */
  predicate InTime(calls: seq<Call>, since: nat)
    decreases |calls|
  {
    calls == [] ||
    (since <= calls[0].evicting <= calls[0].creating <= calls[0].consuming && InTime(calls[1..], calls[0].consuming))
  }

  /** `r` remembers everybody; `l` has the same buckets, except some that were full at some time up to `now`. */
  ghost predicate Mirrors(p: Policy, l: Buckets, r: Buckets, now: nat) {
    && (forall ip :: ip in l ==> ip in r && l[ip] == r[ip])
    && (forall ip :: ip in r && ip !in l ==> Forgotten(p, r[ip], now))
  }

  ghost predicate Forgotten(p: Policy, b: Bucket, now: nat) {
    exists t: nat :: t <= now && p.forget(b, t)
  }

  lemma MirrorsLater(p: Policy, l: Buckets, r: Buckets, now: nat, later: nat)
    requires Mirrors(p, l, r, now) && now <= later
    ensures Mirrors(p, l, r, later)
  {
    forall ip | ip in r && ip !in l ensures Forgotten(p, r[ip], later) {
      var t: nat :| t <= now && p.forget(r[ip], t);
      assert t <= later;
    }
  }

  lemma EvictedMirrors(p: Policy, l: Limiter, r: Buckets, now: nat)
    requires Mirrors(p, l.buckets, r, now)
    ensures Mirrors(p, Evicted(p, l, now).buckets, r, now)
  {
    var m := Evicted(p, l, now).buckets;
    forall ip | ip in r && ip !in m ensures Forgotten(p, r[ip], now) {
      if ip in l.buckets {
        assert p.forget(r[ip], now);
      }
    }
  }

  lemma PutMirrors(p: Policy, l: Buckets, r: Buckets, now: nat, ip: string, b: Bucket)
    requires Mirrors(p, l, r, now)
    ensures Mirrors(p, l[ip := b], r[ip := b], now)
  {
  }

  /** A client without a bucket is treated like one whose full bucket was forgotten. */
  lemma NewcomerSame(p: Policy, b: Bucket, creating: nat, consuming: nat)
    requires SafeTest(p.limit, p.forget) && creating <= consuming && Forgotten(p, b, consuming)
    ensures Consumed(p.limit, Fresh(p.limit, creating), consuming) == Consumed(p.limit, b, consuming)
    ensures Judged(p, Fresh(p.limit, creating), consuming) == Judged(p, b, consuming)
  {
    var t: nat :| t <= consuming && p.forget(b, t);
    FullIsFresh(p.limit, b, creating, consuming);
  }

  lemma KnownSame(p: Policy, l: Limiter, r: Limiter, call: Call)
    requires Mirrors(p, l.buckets, r.buckets, call.consuming) && call.ip in l.buckets
    ensures Mirrors(p, Allow(p, l, call).0.buckets, Allow(p.(cap := 0), r, call).0.buckets, call.consuming)
    ensures Allow(p, l, call).1 == Allow(p.(cap := 0), r, call).1
  {
    PutMirrors(p, l.buckets, r.buckets, call.consuming, call.ip, Consumed(p.limit, l.buckets[call.ip], call.consuming));
  }

  lemma UnknownSame(p: Policy, l: Limiter, m: Limiter, r: Limiter, call: Call)
    requires SafeTest(p.limit, p.forget) && call.creating <= call.consuming && call.ip !in l.buckets
    requires m == MadeRoom(p, l, call.evicting) && !Crowded(p, m) && call.ip !in m.buckets
    requires Mirrors(p, m.buckets, r.buckets, call.consuming)
    ensures Mirrors(p, Allow(p, l, call).0.buckets, Allow(p.(cap := 0), r, call).0.buckets, call.consuming)
    ensures Allow(p, l, call).1 == Allow(p.(cap := 0), r, call).1
  {
    var newcomer := Fresh(p.limit, call.creating);
    if call.ip in r.buckets {
      NewcomerSame(p, r.buckets[call.ip], call.creating, call.consuming);
    }
    PutMirrors(p, m.buckets, r.buckets, call.consuming, call.ip, Consumed(p.limit, newcomer, call.consuming));
  }

  lemma AllowSame(p: Policy, l: Limiter, r: Limiter, call: Call, since: nat)
    requires SafeTest(p.limit, p.forget) && Mirrors(p, l.buckets, r.buckets, since)
    requires since <= call.evicting <= call.creating <= call.consuming && Allow(p, l, call).1 != NoRoom
    ensures Allow(p, l, call).1 == Allow(p.(cap := 0), r, call).1
    ensures Mirrors(p, Allow(p, l, call).0.buckets, Allow(p.(cap := 0), r, call).0.buckets, call.consuming)
  {
    if call.ip in l.buckets {
      MirrorsLater(p, l.buckets, r.buckets, since, call.consuming);
      KnownSame(p, l, r, call);
    } else {
      var m := MadeRoom(p, l, call.evicting);
      MirrorsLater(p, l.buckets, r.buckets, since, call.evicting);
      EvictedMirrors(p, l, r.buckets, call.evicting);
      MirrorsLater(p, m.buckets, r.buckets, call.evicting, call.consuming);
      UnknownSame(p, l, m, r, call);
    }
  }

  lemma {:induction false} SameVerdicts(p: Policy, l: Limiter, r: Limiter, calls: seq<Call>, since: nat)
    requires SafeTest(p.limit, p.forget) && Mirrors(p, l.buckets, r.buckets, since) && InTime(calls, since)
    requires NoRoom !in Verdicts(p, l, calls)
    ensures Verdicts(p, l, calls) == Verdicts(p.(cap := 0), r, calls)
    decreases |calls|
  {
    if calls != [] {
      var (m, v) := Allow(p, l, calls[0]);
      assert Verdicts(p, l, calls)[0] == v;
      assert Verdicts(p, l, calls)[1..] == Verdicts(p, m, calls[1..]);
      AllowSame(p, l, r, calls[0], since);
      SameVerdicts(p, m, Allow(p.(cap := 0), r, calls[0]).0, calls[1..], calls[0].consuming);
    }
  }

  /**
   As long as the cap turns nobody away, forgetting full buckets changes no verdict: the limiter acts as if
   uncapped.
   */
  lemma EvictionLosesNothing(rate: real, burst: real, cap: nat, calls: seq<Call>)
    requires rate >= 0.0 && burst >= 0.0 && InTime(calls, 0)
    requires NoRoom !in Verdicts(PolicyOf(rate, burst, cap), Limiter(map[], 0), calls)
    ensures Verdicts(PolicyOf(rate, burst, cap), Limiter(map[], 0), calls)
         == Verdicts(PolicyOf(rate, burst, 0), Limiter(map[], 0), calls)
  {
    RefilledIsSafe(rate, burst);
    SameVerdicts(PolicyOf(rate, burst, cap), Limiter(map[], 0), Limiter(map[], 0), calls, 0);
  }

  // ----- The objects -----

  class TokenBucket {
    const c: Limit
    var tokens: nat
    var last: nat

    constructor (c: Limit, now: nat)
      ensures this.c == c && View() == Fresh(c, now)
    {
      this.c := c;
      tokens, last := c.full, now;
    }

    function View(): Bucket
      reads this
    {
      Bucket(tokens, last)
    }

    method TryConsume(now: nat) returns (ok: bool)
      modifies this
      ensures View() == Consumed(c, old(View()), now) && ok == Accepts(c, old(View()), now)
    {
      var elapsed := if now > last then now - last else 0;
      var refill := c.earn(elapsed).Floor;
      var grown := tokens + if refill < 0 then 0 else refill;
      if grown > c.full {
        grown := c.full;
      }
      last := now;
      if grown < SCALE {
        tokens := grown;
        return false;
      }
      tokens := grown - SCALE;
      return true;
    }
  }

  class PerClientLimiter {
    const enabled: bool
    const p: Policy
    var buckets: Buckets
    var lastEvict: nat

    constructor (enabled: bool, p: Policy)
      ensures this.enabled == enabled && this.p == p && View() == Limiter(map[], 0)
    {
      this.enabled, this.p := enabled, p;
      buckets, lastEvict := map[], 0;
    }

    function View(): Limiter
      reads this
    {
      Limiter(buckets, lastEvict)
    }

    /** Drops every bucket that is full again, at most once in an interval. */
    method EvictFullBuckets(now: nat)
      modifies this
      ensures View() == Evicted(p, old(View()), now)
    {
      if now - lastEvict < EVICT_INTERVAL { return; }
      lastEvict := now;
      var left := buckets.Keys;
      while left != {}
        invariant left <= buckets.Keys <= old(buckets).Keys
        invariant forall ip :: ip in buckets ==> buckets[ip] == old(buckets)[ip]
        invariant forall ip :: ip in old(buckets) && ip !in left ==>
          (ip in buckets <==> !p.forget(old(buckets)[ip], now))
        invariant lastEvict == now
        decreases |left|
      {
        var ip :| ip in left;
        left := left - {ip};
        if p.forget(buckets[ip], now) {
          buckets := buckets - {ip};
        }
      }
    }

    method AllowPerIP(call: Call) returns (v: Verdict)
      modifies this
      ensures (View(), v) == if enabled then Allow(p, old(View()), call) else (old(View()), Accept)
    {
      if !enabled { return Accept; }
      if call.ip in buckets {
        v := Use(call, buckets[call.ip]);
        return;
      }
      if p.cap != 0 {
        if |buckets| >= p.cap {
          EvictFullBuckets(call.evicting);
        }
        if |buckets| >= p.cap { return NoRoom; }
      }
      v := Use(call, Fresh(p.limit, call.creating));
    }

    /** Consumes from the client's bucket. */
    method Use(call: Call, b: Bucket) returns (v: Verdict)
      modifies `buckets
      ensures View() == Used(p, old(View()), call, b) && v == Judged(p, b, call.consuming)
    {
      var bucket := new TokenBucket(p.limit, b.last);
      bucket.tokens := b.tokens;
      var ok := bucket.TryConsume(call.consuming);
      buckets := buckets[call.ip := bucket.View()];
      v := if ok then Accept else Refuse;
    }
  }
}
