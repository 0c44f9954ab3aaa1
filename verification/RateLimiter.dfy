/** The per-client token bucket of the HTTP rate limiter. */
module RateLimiter {
  const SECOND: int := 1_000_000_000    // nanoseconds

  datatype Visitor = Visitor(tokens: int, lastReq: int)

  datatype Config = Config(limit: int, burst: int, ttl: int)

  /** Whole seconds in a number of nanoseconds: conversion to an integer drops the fraction, also
      below zero. */
  function Seconds(n: int): int {
    if n >= 0 then n / 1_000_000_000 else -((-n) / 1_000_000_000)
  }

  /** Tokens that a pause of `elapsed` nanoseconds adds. */
  function Refill(c: Config, elapsed: int): int {
    Seconds(elapsed * c.limit)
  }

  function Min(a: int, b: int): int {
    if a <= b then a else b
  }

  // ----- the limiter -----

  /** The tokens a client holds at time `now`, before the request at that time is served. */
  function Available(c: Config, visitors: map<string, Visitor>, ip: string, now: int): int {
    if ip !in visitors then Min(c.burst, c.burst + Refill(c, 0))
    else Min(c.burst, visitors[ip].tokens + Refill(c, now - visitors[ip].lastReq))
  }

  /** A request is served exactly when a token is available; it takes the token. */
  function AfterRequest(c: Config, visitors: map<string, Visitor>, ip: string, now: int): map<string, Visitor> {
    var available := Available(c, visitors, ip, now);
    visitors[ip := Visitor(if available >= 1 then available - 1 else available, now)]
  }

  predicate Expired(c: Config, v: Visitor, now: int) {
    now - v.lastReq > c.ttl
  }

  function Unexpired(c: Config, visitors: map<string, Visitor>, now: int): map<string, Visitor> {
    map ip | ip in visitors && !Expired(c, visitors[ip], now) :: visitors[ip]
  }

  class Limiter {
    var visitors: map<string, Visitor>
    const config: Config
    var maxEntries: int

    constructor (requestsPerSecond: int, burst: int)
      ensures visitors == map[] && maxEntries == 10000
      ensures config == Config(requestsPerSecond, burst, 300 * SECOND)
    {
      visitors := map[];
      config := Config(requestsPerSecond, burst, 300 * SECOND);
      maxEntries := 10000;
    }

    method SetMaxEntries(max: int)
      modifies this`maxEntries
      ensures maxEntries == if max > 0 then max else old(maxEntries)
    {
      if max > 0 {
        maxEntries := max;
      }
    }

    /** `checkRate`, with the clock reading as a parameter. */
    method CheckRate(ip: string, now: int) returns (allowed: bool, retryAfter: int)
      modifies this`visitors
      ensures allowed == (Available(config, old(visitors), ip, now) >= 1)
      ensures retryAfter == if allowed then 0 else SECOND
      ensures visitors == AfterRequest(config, old(visitors), ip, now)
    {
      var v: Visitor;
      if ip in visitors {
        v := visitors[ip];
      } else {
        v := Visitor(config.burst, now);
        visitors := visitors[ip := v];
      }
      var elapsed := now - v.lastReq;
      v := v.(tokens := v.tokens + Refill(config, elapsed));
      if v.tokens > config.burst {
        v := v.(tokens := config.burst);
      }
      v := v.(lastReq := now);
      visitors := visitors[ip := v];
      if v.tokens < 1 {
        return false, SECOND;
      }
      v := v.(tokens := v.tokens - 1);
      visitors := visitors[ip := v];
      return true, 0;
    }

    /** `cleanup`: drops expired entries, then entries in map order until the rest fits. */
    method Cleanup(now: int)
      modifies this`visitors
      ensures var kept := Unexpired(config, old(visitors), now);
              && visitors == Next(config, old(visitors), Step.Cleanup(kept.Keys - visitors.Keys, now))
              && (|kept| <= maxEntries ==> visitors == kept)
              && (|kept| > maxEntries ==> |visitors| == if maxEntries > 0 then maxEntries else 0)
    {
      var todo := visitors.Keys;
      while todo != {}
        invariant todo <= visitors.Keys <= old(visitors).Keys
        invariant forall ip :: ip in visitors ==> visitors[ip] == old(visitors)[ip]
        invariant forall ip :: ip in old(visitors) ==>
                    (ip in visitors <==> ip in todo || !Expired(config, old(visitors)[ip], now))
        decreases todo
      {
        var ip :| ip in todo;
        todo := todo - {ip};
        if Expired(config, visitors[ip], now) {
          visitors := visitors - {ip};
        }
      }
      ghost var kept := Unexpired(config, old(visitors), now);
      assert visitors == kept;
      if |visitors| > maxEntries {
        var entries := visitors.Keys;
        while entries != {} && |visitors| > maxEntries
          invariant entries <= visitors.Keys <= kept.Keys
          invariant forall ip :: ip in visitors ==> visitors[ip] == kept[ip]
          invariant |visitors| >= maxEntries && |visitors.Keys| == |visitors|
          invariant |visitors| < |kept| || |visitors| > maxEntries
          invariant entries == visitors.Keys
          decreases entries
        {
          var ip :| ip in entries;
          entries := entries - {ip};
          visitors := visitors - {ip};
        }
      }
    }
  }

  // ----- runs -----

  /** What happens to a limiter: a request, or a cleanup that drops, besides the expired entries,
      those in `evicted` to make room. */
  datatype Step = Request(ip: string, now: int) | Cleanup(evicted: set<string>, now: int)

  function Next(c: Config, visitors: map<string, Visitor>, step: Step): map<string, Visitor> {
    match step
    case Request(ip, now) => AfterRequest(c, visitors, ip, now)
    case Cleanup(evicted, now) => Unexpired(c, visitors, now) - evicted
  }

  function After(c: Config, visitors: map<string, Visitor>, steps: seq<Step>): map<string, Visitor>
    decreases |steps|
  {
    if steps == [] then visitors else After(c, Next(c, visitors, steps[0]), steps[1..])
  }

  predicate Allowed(c: Config, visitors: map<string, Visitor>, step: Step) {
    step.Request? && Available(c, visitors, step.ip, step.now) >= 1
  }

  /** The answers to the requests of a run, in order. */
  function Answers(c: Config, visitors: map<string, Visitor>, steps: seq<Step>): seq<bool>
    decreases |steps|
  {
    if steps == [] then []
    else (if steps[0].Request? then [Allowed(c, visitors, steps[0])] else [])
         + Answers(c, Next(c, visitors, steps[0]), steps[1..])
  }

  /** The same run without its cleanups. */
  function Requests(steps: seq<Step>): seq<Step> {
    if steps == [] then []
    else (if steps[0].Request? then [steps[0]] else []) + Requests(steps[1..])
  }

  ghost predicate Ordered(steps: seq<Step>, from: int) {
    steps != [] ==> from <= steps[0].now && Ordered(steps[1..], steps[0].now)
  }

  /** Requests of one client that are allowed in a run. */
  function AllowedCount(c: Config, visitors: map<string, Visitor>, steps: seq<Step>, ip: string): nat
    decreases |steps|
  {
    if steps == [] then 0
    else (if Allowed(c, visitors, steps[0]) && steps[0].ip == ip then 1 else 0)
         + AllowedCount(c, Next(c, visitors, steps[0]), steps[1..], ip)
  }

  /** The client is never deleted during the run. */
  predicate NeverDeleted(c: Config, visitors: map<string, Visitor>, steps: seq<Step>, ip: string)
    decreases |steps|
  {
    steps != [] ==>
      var next := Next(c, visitors, steps[0]);
      (ip in visitors ==> ip in next) && NeverDeleted(c, next, steps[1..], ip)
  }

  /** Every bucket holds between nothing and `burst`, and was last used in the past. */
  ghost predicate Sane(c: Config, visitors: map<string, Visitor>, now: int) {
    forall ip :: ip in visitors ==> 0 <= visitors[ip].tokens <= c.burst && visitors[ip].lastReq <= now
  }

  // ----- arithmetic of the refill -----

  lemma SecondsMonotone(a: int, b: int)
    requires 0 <= a <= b
    ensures 0 <= Seconds(a) <= Seconds(b)
  {
  }

  lemma SecondsSuperadditive(a: int, b: int)
    requires a >= 0 && b >= 0
    ensures Seconds(a) + Seconds(b) <= Seconds(a + b)
  {
  }

  lemma RefillNonNegative(c: Config, elapsed: int)
    requires c.limit >= 0 && elapsed >= 0
    ensures elapsed * c.limit >= 0 && Refill(c, elapsed) >= 0
  {
  }

  lemma RefillMonotone(c: Config, a: int, b: int)
    requires c.limit >= 0 && 0 <= a <= b
    ensures Refill(c, a) <= Refill(c, b)
  {
    RefillNonNegative(c, a);
    RefillNonNegative(c, b);
    assert a * c.limit <= b * c.limit by { assert (b - a) * c.limit >= 0; }
    SecondsMonotone(a * c.limit, b * c.limit);
  }

  /** Two pauses refill at most what one pause of their joint length would. */
  lemma RefillSuperadditive(c: Config, a: int, b: int)
    requires c.limit >= 0 && a >= 0 && b >= 0
    ensures Refill(c, a) + Refill(c, b) <= Refill(c, a + b)
  {
    RefillNonNegative(c, a);
    RefillNonNegative(c, b);
    RefillNonNegative(c, a + b);
    assert (a + b) * c.limit == a * c.limit + b * c.limit;
    SecondsSuperadditive(a * c.limit, b * c.limit);
  }

  // ----- tokens stay within bounds -----

  lemma AvailableInBounds(c: Config, visitors: map<string, Visitor>, ip: string, now: int)
    requires c.limit >= 0 && c.burst >= 0 && Sane(c, visitors, now)
    ensures 0 <= Available(c, visitors, ip, now) <= c.burst
  {
    RefillNonNegative(c, 0);
    if ip in visitors { RefillNonNegative(c, now - visitors[ip].lastReq); }
  }

  lemma StepKeepsSane(c: Config, visitors: map<string, Visitor>, step: Step, from: int)
    requires c.limit >= 0 && c.burst >= 0 && Sane(c, visitors, from) && from <= step.now
    ensures Sane(c, Next(c, visitors, step), step.now)
  {
    hide Available;
    if step.Request? { AvailableInBounds(c, visitors, step.ip, step.now); }
  }

  /** Throughout every run all buckets hold between nothing and `burst`. */
  lemma {:induction false} RunKeepsSane(c: Config, visitors: map<string, Visitor>, steps: seq<Step>, from: int)
    requires c.limit >= 0 && c.burst >= 0 && Sane(c, visitors, from) && Ordered(steps, from)
    ensures Sane(c, After(c, visitors, steps), if steps == [] then from else steps[|steps| - 1].now)
    decreases |steps|
  {
    hide Sane, Next;
    if steps != [] {
      StepKeepsSane(c, visitors, steps[0], from);
      RunKeepsSane(c, Next(c, visitors, steps[0]), steps[1..], steps[0].now);
    }
  }

  // ----- the bucket bounds the rate -----

  lemma OrderedReaches(steps: seq<Step>, from: int, to: int)
    requires Ordered(steps, from) && steps != [] && steps[|steps| - 1].now <= to
    ensures from <= steps[0].now <= to
    ensures |steps| > 1 ==> steps[1..] != [] && steps[1..][|steps| - 2].now <= to
  {
    if |steps| > 1 {
      OrderedReaches(steps[1..], steps[0].now, to);
    }
  }

  /** What one request can take, counted from the last use of the bucket. */
  lemma RequestTakesFromLevel(c: Config, visitors: map<string, Visitor>, ip: string, now: int)
    requires c.limit >= 0 && c.burst >= 0 && Sane(c, visitors, now)
    ensures var next := AfterRequest(c, visitors, ip, now);
            && next[ip].lastReq == now
            && (if Available(c, visitors, ip, now) >= 1 then 1 else 0) + next[ip].tokens
               == Available(c, visitors, ip, now) <= c.burst
    ensures ip in visitors ==>
              Available(c, visitors, ip, now) <= visitors[ip].tokens + Refill(c, now - visitors[ip].lastReq)
  {
    hide Refill;
    AvailableInBounds(c, visitors, ip, now);
  }

  /** A bucket gives out at most what it holds and what is refilled since its last use. */
  lemma {:induction false} AllowedFromLevel(c: Config, visitors: map<string, Visitor>, steps: seq<Step>,
                                           ip: string, from: int, to: int)
    requires c.limit >= 0 && c.burst >= 0 && Sane(c, visitors, from) && Ordered(steps, from)
    requires from <= to && (steps != [] ==> steps[|steps| - 1].now <= to)
    requires ip in visitors && NeverDeleted(c, visitors, steps, ip)
    ensures AllowedCount(c, visitors, steps, ip) <= visitors[ip].tokens + Refill(c, to - visitors[ip].lastReq)
    decreases |steps|
  {
    hide Refill, Available, Unexpired;
    var last := visitors[ip].lastReq;
    RefillNonNegative(c, to - last);
    if steps != [] {
      var step, next := steps[0], Next(c, visitors, steps[0]);
      OrderedReaches(steps, from, to);
      StepKeepsSane(c, visitors, step, from);
      AllowedFromLevel(c, next, steps[1..], ip, step.now, to);
      if step.Request? && step.ip == ip {
        SaneLater(c, visitors, from, step.now);
        RequestTakesFromLevel(c, visitors, ip, step.now);
        RefillSuperadditive(c, step.now - last, to - step.now);
      } else {
        OthersUntouched(c, visitors, step, ip);
      }
    }
  }

  lemma SaneLater(c: Config, visitors: map<string, Visitor>, from: int, now: int)
    requires Sane(c, visitors, from) && from <= now
    ensures Sane(c, visitors, now)
  {
  }

  lemma OthersUntouched(c: Config, visitors: map<string, Visitor>, step: Step, ip: string)
    requires ip in visitors && ip in Next(c, visitors, step) && (step.Request? ==> step.ip != ip)
    ensures Next(c, visitors, step)[ip] == visitors[ip]
  {
  }

  /** The rate bound: from time `from` to time `to`, a client that is not deleted meanwhile is
      allowed at most `burst` requests plus what is refilled in that time. */
  lemma {:induction false} BucketBound(c: Config, visitors: map<string, Visitor>, steps: seq<Step>,
                                       ip: string, from: int, to: int)
    requires c.limit >= 0 && c.burst >= 0 && Sane(c, visitors, from) && Ordered(steps, from)
    requires from <= to && (steps != [] ==> steps[|steps| - 1].now <= to)
    requires NeverDeleted(c, visitors, steps, ip)
    ensures AllowedCount(c, visitors, steps, ip) <= c.burst + Refill(c, to - from)
    decreases |steps|
  {
    hide Refill, Available, Unexpired;
    RefillNonNegative(c, to - from);
    if steps != [] {
      var step, next := steps[0], Next(c, visitors, steps[0]);
      OrderedReaches(steps, from, to);
      StepKeepsSane(c, visitors, step, from);
      RefillMonotone(c, to - step.now, to - from);
      if step.Request? && step.ip == ip {
        SaneLater(c, visitors, from, step.now);
        RequestTakesFromLevel(c, visitors, ip, step.now);
        AllowedFromLevel(c, next, steps[1..], ip, step.now, to);
      } else {
        BucketBound(c, next, steps[1..], ip, step.now, to);
      }
    }
  }

  // ----- steady and hasty clients -----

  /** Whether every pause between two requests of the client satisfies `refills` of its refill. */
  ghost predicate EveryGap(c: Config, visitors: map<string, Visitor>, steps: seq<Step>, ip: string,
                           refills: int -> bool)
    decreases |steps|
  {
    steps != [] ==>
      && (steps[0].Request? && steps[0].ip == ip && ip in visitors ==>
            refills(Refill(c, steps[0].now - visitors[ip].lastReq)))
      && EveryGap(c, Next(c, visitors, steps[0]), steps[1..], ip, refills)
  }

  function RequestCount(steps: seq<Step>, ip: string): nat {
    if steps == [] then 0
    else (if steps[0].Request? && steps[0].ip == ip then 1 else 0) + RequestCount(steps[1..], ip)
  }

  /** A client whose every pause earns a token is never refused. */
  lemma {:induction false} SteadyClientNeverRefused(c: Config, visitors: map<string, Visitor>, steps: seq<Step>,
                                                    ip: string, from: int)
    requires c.limit >= 0 && c.burst >= 1 && Sane(c, visitors, from) && Ordered(steps, from)
    requires EveryGap(c, visitors, steps, ip, n => n >= 1)
    ensures AllowedCount(c, visitors, steps, ip) == RequestCount(steps, ip)
    decreases |steps|
  {
    hide Refill, Unexpired;
    if steps != [] {
      RefillNonNegative(c, 0);
      StepKeepsSane(c, visitors, steps[0], from);
      SteadyClientNeverRefused(c, Next(c, visitors, steps[0]), steps[1..], ip, steps[0].now);
    }
  }

  /** A client whose pauses are all too short to earn a token is allowed at most `burst` requests
      ever, however long the run: each request forfeits the fraction it had earned. */
  lemma {:induction false} HastyClientGetsBurst(c: Config, visitors: map<string, Visitor>, steps: seq<Step>,
                                                ip: string, from: int)
    requires c.limit >= 0 && c.burst >= 0 && Sane(c, visitors, from) && Ordered(steps, from)
    requires NeverDeleted(c, visitors, steps, ip) && EveryGap(c, visitors, steps, ip, n => n == 0)
    ensures AllowedCount(c, visitors, steps, ip) <= if ip in visitors then visitors[ip].tokens else c.burst
    decreases |steps|
  {
    hide Refill, Available, Unexpired;
    if steps != [] {
      var step, next := steps[0], Next(c, visitors, steps[0]);
      StepKeepsSane(c, visitors, step, from);
      HastyClientGetsBurst(c, next, steps[1..], ip, step.now);
      if step.Request? && step.ip == ip {
        SaneLater(c, visitors, from, step.now);
        RequestTakesFromLevel(c, visitors, ip, step.now);
      } else if ip in visitors {
        OthersUntouched(c, visitors, step, ip);
      }
    }
  }

  // ----- deleting entries -----

  ghost predicate OnlyExpiry(steps: seq<Step>) {
    forall i :: 0 <= i < |steps| && steps[i].Cleanup? ==> steps[i].evicted == {}
  }

  /** `pruned` is `full` without some entries, each of which has expired. */
  ghost predicate PrunedExpired(c: Config, pruned: map<string, Visitor>, full: map<string, Visitor>, now: int) {
    && (forall ip :: ip in pruned ==> ip in full && pruned[ip] == full[ip])
    && (forall ip :: ip in full && ip !in pruned ==> Expired(c, full[ip], now))
  }

  lemma ExpiredIsAsGoodAsNew(c: Config, pruned: map<string, Visitor>, full: map<string, Visitor>,
                             ip: string, now: int)
    requires c.limit >= 0 && c.burst >= 0 && c.ttl >= 0 && Refill(c, c.ttl + 1) >= c.burst
    requires PrunedExpired(c, pruned, full, now) && Sane(c, full, now)
    ensures Available(c, pruned, ip, now) == Available(c, full, ip, now)
  {
    hide Refill;
    RefillNonNegative(c, 0);
    if ip in full && ip !in pruned {
      RefillMonotone(c, c.ttl + 1, now - full[ip].lastReq);
    }
  }

  lemma {:induction false} ExpiryInvisibleFrom(c: Config, pruned: map<string, Visitor>, full: map<string, Visitor>,
                                               steps: seq<Step>, from: int)
    requires c.limit >= 0 && c.burst >= 0 && c.ttl >= 0 && Refill(c, c.ttl + 1) >= c.burst
    requires Ordered(steps, from) && OnlyExpiry(steps) && Sane(c, full, from) && PrunedExpired(c, pruned, full, from)
    ensures Answers(c, pruned, steps) == Answers(c, full, Requests(steps))
    decreases |steps|
  {
    hide Refill, Available, Sane;
    if steps != [] {
      var step := steps[0];
      var next := Next(c, pruned, step);
      SaneLater(c, full, from, step.now);
      assert PrunedExpired(c, pruned, full, step.now);
      if step.Request? {
        ExpiredIsAsGoodAsNew(c, pruned, full, step.ip, step.now);
        StepKeepsSane(c, full, step, from);
        ExpiryInvisibleFrom(c, next, Next(c, full, step), steps[1..], step.now);
        assert Requests(steps)[1..] == Requests(steps[1..]);
      } else {
        ExpiryInvisibleFrom(c, next, full, steps[1..], step.now);
        assert Requests(steps) == Requests(steps[1..]);
        assert [] + Answers(c, next, steps[1..]) == Answers(c, next, steps[1..]);
      }
    }
  }

  // A run that tells expiry from no expiry: exhaust the bucket, let it expire, exhaust it again.

  function Repeat(ip: string, now: int, n: nat): seq<Step> {
    if n == 0 then [] else [Request(ip, now)] + Repeat(ip, now, n - 1)
  }

  lemma {:induction false} RepeatedRequests(c: Config, visitors: map<string, Visitor>, ip: string, now: int, n: nat,
                                            rest: seq<Step>)
    requires c.limit >= 0 && n <= Available(c, visitors, ip, now)
    ensures var mid := After(c, visitors, Repeat(ip, now, n));
            && AllowedCount(c, visitors, Repeat(ip, now, n) + rest, ip) == n + AllowedCount(c, mid, rest, ip)
            && (n > 0 ==> mid.Keys == visitors.Keys + {ip} && mid[ip].lastReq == now)
    decreases n
  {
    hide Refill;
    var steps := Repeat(ip, now, n) + rest;
    if n == 0 {
      assert steps == rest;
    } else {
      RefillNonNegative(c, 0);
      assert steps[0] == Request(ip, now) && steps[1..] == Repeat(ip, now, n - 1) + rest;
      var next := AfterRequest(c, visitors, ip, now);
      RepeatedRequests(c, next, ip, now, n - 1, rest);
      assert Repeat(ip, now, n)[1..] == Repeat(ip, now, n - 1);
    }
  }

  lemma {:induction false} RepeatOrdered(ip: string, now: int, n: nat, rest: seq<Step>)
    requires Ordered(rest, now)
    ensures Ordered(Repeat(ip, now, n) + rest, now)
    decreases n
  {
    var steps := Repeat(ip, now, n) + rest;
    if n == 0 {
      assert steps == rest;
    } else {
      RepeatOrdered(ip, now, n - 1, rest);
      assert steps[1..] == Repeat(ip, now, n - 1) + rest;
    }
  }

  lemma RequestsStep(r: Step, steps: seq<Step>)
    requires r.Request?
    ensures Requests([r] + steps) == [r] + Requests(steps)
  {
    assert ([r] + steps)[1..] == steps;
  }

  lemma {:induction false} RequestsOfRepeat(ip: string, now: int, n: nat, rest: seq<Step>)
    ensures Requests(Repeat(ip, now, n) + rest) == Repeat(ip, now, n) + Requests(rest)
    decreases n
  {
    hide Requests;
    if n == 0 {
      assert [] + rest == rest && [] + Requests(rest) == Requests(rest);
    } else {
      var r, tail := Request(ip, now), Repeat(ip, now, n - 1);
      RequestsOfRepeat(ip, now, n - 1, rest);
      RequestsStep(r, tail + rest);
      assert [r] + (tail + rest) == [r] + tail + rest;
      assert [r] + (tail + Requests(rest)) == [r] + tail + Requests(rest);
    }
  }

  lemma {:induction false} RepeatIsRequests(ip: string, now: int, n: nat)
    ensures forall i :: 0 <= i < |Repeat(ip, now, n)| ==> Repeat(ip, now, n)[i] == Request(ip, now)
    ensures |Repeat(ip, now, n)| == n
    decreases n
  {
    if n > 0 {
      RepeatIsRequests(ip, now, n - 1);
    }
  }

  function TrueCount(answers: seq<bool>): nat {
    if answers == [] then 0 else (if answers[0] then 1 else 0) + TrueCount(answers[1..])
  }

  lemma {:induction false} OneClientCount(c: Config, visitors: map<string, Visitor>, steps: seq<Step>, ip: string)
    requires forall i :: 0 <= i < |steps| && steps[i].Request? ==> steps[i].ip == ip
    ensures AllowedCount(c, visitors, steps, ip) == TrueCount(Answers(c, visitors, steps))
    decreases |steps|
  {
    hide Next, Allowed;
    if steps != [] {
      var rest := Answers(c, Next(c, visitors, steps[0]), steps[1..]);
      OneClientCount(c, Next(c, visitors, steps[0]), steps[1..], ip);
      if steps[0].Request? {
        assert Answers(c, visitors, steps)[1..] == rest;
      } else {
        assert [] + rest == rest;
        assert !Allowed(c, visitors, steps[0]) by { CleanupAllowsNothing(c, visitors, steps[0]); }
      }
    }
  }

  lemma CleanupAllowsNothing(c: Config, visitors: map<string, Visitor>, step: Step)
    requires step.Cleanup?
    ensures !Allowed(c, visitors, step)
  {
  }

  lemma {:induction false} RequestsDeleteNothing(c: Config, visitors: map<string, Visitor>, steps: seq<Step>,
                                                 ip: string)
    requires forall i :: 0 <= i < |steps| ==> steps[i].Request?
    ensures NeverDeleted(c, visitors, steps, ip)
    decreases |steps|
  {
    if steps != [] {
      RequestsDeleteNothing(c, Next(c, visitors, steps[0]), steps[1..], ip);
    }
  }

  function ExhaustTwice(c: Config, ip: string): seq<Step>
    requires c.burst >= 0
  {
    Repeat(ip, 0, c.burst) + ([Cleanup({}, c.ttl + 1)] + Repeat(ip, c.ttl + 1, c.burst))
  }

  lemma ExhaustTwiceIsRun(c: Config, ip: string)
    requires c.burst >= 0 && c.ttl >= 0
    ensures var steps := ExhaustTwice(c, ip);
            && Ordered(steps, 0) && OnlyExpiry(steps)
            && Requests(steps) == Repeat(ip, 0, c.burst) + Repeat(ip, c.ttl + 1, c.burst)
            && (forall i :: 0 <= i < |steps| && steps[i].Request? ==> steps[i].ip == ip)
  {
    hide Repeat, Ordered, Requests;
    var rest := [Cleanup({}, c.ttl + 1)] + Repeat(ip, c.ttl + 1, c.burst);
    SecondHalfIsRun(c, ip, rest);
    assert Ordered(rest, 0) by { OrderedEarlier(rest, c.ttl + 1, 0); }
    RepeatOrdered(ip, 0, c.burst, rest);
    RequestsOfRepeat(ip, 0, c.burst, rest);
    RepeatIsRequests(ip, 0, c.burst);
    RepeatIsRequests(ip, c.ttl + 1, c.burst);
  }

  lemma SecondHalfIsRun(c: Config, ip: string, rest: seq<Step>)
    requires c.burst >= 0 && c.ttl >= 0 && rest == [Cleanup({}, c.ttl + 1)] + Repeat(ip, c.ttl + 1, c.burst)
    ensures Ordered(rest, c.ttl + 1) && Requests(rest) == Repeat(ip, c.ttl + 1, c.burst)
  {
    hide Repeat;
    var second := Repeat(ip, c.ttl + 1, c.burst);
    assert rest[1..] == second && second + [] == second;
    RepeatOrdered(ip, c.ttl + 1, c.burst, []);
    RequestsOfRepeat(ip, c.ttl + 1, c.burst, []);
  }

  lemma OrderedEarlier(steps: seq<Step>, from: int, earlier: int)
    requires Ordered(steps, from) && earlier <= from
    ensures Ordered(steps, earlier)
  {
  }

  lemma WithExpiry(c: Config, ip: string)
    requires c.limit >= 0 && c.burst > 0 && c.ttl >= 0
    ensures AllowedCount(c, map[], ExhaustTwice(c, ip), ip) == 2 * c.burst
  {
    hide Refill, Available;
    var gap := c.ttl + 1;
    var second := Repeat(ip, gap, c.burst);
    var rest := [Cleanup({}, gap)] + second;
    FreshIsFull(c, map[], ip, 0);
    RepeatedRequests(c, map[], ip, 0, c.burst, rest);
    var mid := After(c, map[], Repeat(ip, 0, c.burst));
    var expired := Next(c, mid, rest[0]);
    assert ip !in expired;
    FreshIsFull(c, expired, ip, gap);
    RepeatedRequests(c, expired, ip, gap, c.burst, []);
    assert rest[1..] == second && second + [] == second;
  }

  lemma FreshIsFull(c: Config, visitors: map<string, Visitor>, ip: string, now: int)
    requires c.limit >= 0 && ip !in visitors
    ensures Available(c, visitors, ip, now) == c.burst
  {
    RefillNonNegative(c, 0);
  }

  lemma WithoutExpiry(c: Config, ip: string)
    requires c.limit >= 0 && c.burst > 0 && c.ttl >= 0
    ensures AllowedCount(c, map[], Requests(ExhaustTwice(c, ip)), ip) <= c.burst + Refill(c, c.ttl + 1)
  {
    hide Refill;
    var gap := c.ttl + 1;
    ExhaustTwiceIsRun(c, ip);
    var steps := Requests(ExhaustTwice(c, ip));
    RepeatIsRequests(ip, 0, c.burst);
    RepeatIsRequests(ip, gap, c.burst);
    RequestsDeleteNothing(c, map[], steps, ip);
    assert Repeat(ip, gap, c.burst) + [] == Repeat(ip, gap, c.burst);
    RepeatOrdered(ip, gap, c.burst, []);
    var second := Repeat(ip, gap, c.burst);
    assert second[0] == Request(ip, gap);
    RepeatOrdered(ip, 0, c.burst, second);
    assert steps[|steps| - 1] == second[|second| - 1];
    BucketBound(c, map[], steps, ip, 0, gap);
  }

  /** Dropping expired entries changes no answer of any run exactly when an entry that expires
      would have been refilled to the brim. */
  lemma ExpiryInvisibleIffRefilled(c: Config)
    requires c.limit >= 0 && c.burst >= 0 && c.ttl >= 0
    ensures (forall steps :: Ordered(steps, 0) && OnlyExpiry(steps) ==>
               Answers(c, map[], steps) == Answers(c, map[], Requests(steps)))
            <==> Refill(c, c.ttl + 1) >= c.burst
  {
    hide Refill, Ordered, OnlyExpiry, Answers, Requests, ExhaustTwice;
    RefillNonNegative(c, c.ttl + 1);
    if Refill(c, c.ttl + 1) >= c.burst {
      forall steps | Ordered(steps, 0) && OnlyExpiry(steps)
        ensures Answers(c, map[], steps) == Answers(c, map[], Requests(steps))
      {
        ExpiryInvisibleFrom(c, map[], map[], steps, 0);
      }
    } else {
      var ip := "client";
      var steps := ExhaustTwice(c, ip);
      ExhaustTwiceIsRun(c, ip);
      WithExpiry(c, ip);
      WithoutExpiry(c, ip);
      OneClientCount(c, map[], steps, ip);
      RepeatIsRequests(ip, 0, c.burst);
      RepeatIsRequests(ip, c.ttl + 1, c.burst);
      OneClientCount(c, map[], Requests(steps), ip);
      assert Answers(c, map[], steps) != Answers(c, map[], Requests(steps));
    }
  }

  // Deleting entries that have not expired.

  /** Every entry of `pruned` is in `full` with the same last use and no more tokens there. */
  ghost predicate Dominates(pruned: map<string, Visitor>, full: map<string, Visitor>) {
    forall ip :: ip in pruned ==>
      ip in full && pruned[ip].lastReq == full[ip].lastReq && pruned[ip].tokens >= full[ip].tokens
  }

  /** Deleting entries, expired or not, never turns an answer from allowed to refused. */
  lemma {:induction false} EvictionNeverRefuses(c: Config, pruned: map<string, Visitor>, full: map<string, Visitor>,
                                                steps: seq<Step>)
    requires c.limit >= 0 && Dominates(pruned, full)
    ensures var with, without := Answers(c, pruned, steps), Answers(c, full, Requests(steps));
            |with| == |without| && forall i :: 0 <= i < |with| && without[i] ==> with[i]
    decreases |steps|
  {
    hide Refill;
    RefillNonNegative(c, 0);
    if steps != [] {
      var step := steps[0];
      if step.Request? {
        EvictionNeverRefuses(c, Next(c, pruned, step), Next(c, full, step), steps[1..]);
        assert Requests(steps)[1..] == Requests(steps[1..]);
      } else {
        EvictionNeverRefuses(c, Next(c, pruned, step), full, steps[1..]);
        assert Requests(steps) == Requests(steps[1..]);
      }
    }
  }
}
