/** What the rate limiter grants, in nanoseconds and requests. */
module RateTimes {
  import opened RateLimiter

  /** The refill is the greatest number of tokens whose price in nanoseconds the pause has paid. */
  lemma RefillIsPaid(c: Config, elapsed: int, n: int)
    requires c.limit >= 0 && elapsed >= 0
    ensures Refill(c, elapsed) >= n <==> elapsed * c.limit >= n * 1_000_000_000 || n < 0
  {
    RefillNonNegative(c, elapsed);
    var product := elapsed * c.limit;
    assert Refill(c, elapsed) == product / 1_000_000_000;
    FloorIsPaid(product, n);
  }

  /** When the clock has gone back, a client loses what it would have gained going forward. */
  lemma RefillMirrors(c: Config, elapsed: int)
    ensures Refill(c, -elapsed) == -Refill(c, elapsed)
  {
    assert -elapsed * c.limit == -(elapsed * c.limit);
  }

  lemma FloorIsPaid(product: int, n: int)
    requires product >= 0
    ensures product / 1_000_000_000 >= n <==> product >= n * 1_000_000_000 || n < 0
  {
  }

  /** Whether every pause between two requests of a client is of the wanted length. */
  ghost predicate EveryPause(c: Config, visitors: map<string, Visitor>, steps: seq<Step>, ip: string,
                             wanted: int -> bool)
    decreases |steps|
  {
    steps != [] ==>
      && (steps[0].Request? && steps[0].ip == ip && ip in visitors ==> wanted(steps[0].now - visitors[ip].lastReq))
      && EveryPause(c, Next(c, visitors, steps[0]), steps[1..], ip, wanted)
  }

  lemma {:induction false} LongPausesRefill(c: Config, visitors: map<string, Visitor>, steps: seq<Step>, ip: string,
                                            from: int)
    requires c.limit >= 0 && c.burst >= 0 && Sane(c, visitors, from) && Ordered(steps, from)
    requires EveryPause(c, visitors, steps, ip, e => e * c.limit >= 1_000_000_000)
    ensures EveryGap(c, visitors, steps, ip, n => n >= 1)
    decreases |steps|
  {
    hide Refill, Available, Unexpired;
    if steps != [] {
      var step := steps[0];
      StepKeepsSane(c, visitors, step, from);
      if step.Request? && step.ip == ip && ip in visitors {
        RefillIsPaid(c, step.now - visitors[ip].lastReq, 1);
      }
      LongPausesRefill(c, Next(c, visitors, step), steps[1..], ip, step.now);
    }
  }

  /** A client is never refused if each of its pauses, times the limit, makes a second. */
  lemma LongPausesAreServed(c: Config, visitors: map<string, Visitor>, steps: seq<Step>, ip: string, from: int)
    requires c.limit >= 0 && c.burst >= 1 && Sane(c, visitors, from) && Ordered(steps, from)
    requires EveryPause(c, visitors, steps, ip, e => e * c.limit >= 1_000_000_000)
    ensures AllowedCount(c, visitors, steps, ip) == RequestCount(steps, ip)
  {
    LongPausesRefill(c, visitors, steps, ip, from);
    SteadyClientNeverRefused(c, visitors, steps, ip, from);
  }

  lemma {:induction false} ShortPausesRefillNothing(c: Config, visitors: map<string, Visitor>, steps: seq<Step>,
                                                    ip: string, from: int)
    requires c.limit >= 0 && c.burst >= 0 && Sane(c, visitors, from) && Ordered(steps, from)
    requires EveryPause(c, visitors, steps, ip, e => e * c.limit < 1_000_000_000)
    ensures EveryGap(c, visitors, steps, ip, n => n == 0)
    decreases |steps|
  {
    hide Refill, Available, Unexpired;
    if steps != [] {
      var step := steps[0];
      StepKeepsSane(c, visitors, step, from);
      if step.Request? && step.ip == ip && ip in visitors {
        RefillIsPaid(c, step.now - visitors[ip].lastReq, 1);
        RefillNonNegative(c, step.now - visitors[ip].lastReq);
      }
      ShortPausesRefillNothing(c, Next(c, visitors, step), steps[1..], ip, step.now);
    }
  }

  /** If each pause, times the limit, is short of a second, the burst is all a client ever gets. */
  lemma ShortPausesGetBurst(c: Config, visitors: map<string, Visitor>, steps: seq<Step>, ip: string, from: int)
    requires c.limit >= 0 && c.burst >= 0 && Sane(c, visitors, from) && Ordered(steps, from)
    requires NeverDeleted(c, visitors, steps, ip)
    requires EveryPause(c, visitors, steps, ip, e => e * c.limit < 1_000_000_000)
    ensures AllowedCount(c, visitors, steps, ip) <= c.burst
  {
    hide Available, Unexpired;
    ShortPausesRefillNothing(c, visitors, steps, ip, from);
    HastyClientGetsBurst(c, visitors, steps, ip, from);
  }

  /** Beyond the burst, every allowed request has been paid for by the time that has passed. */
  lemma RequestsArePaid(c: Config, visitors: map<string, Visitor>, steps: seq<Step>, ip: string, from: int, to: int)
    requires c.limit >= 0 && c.burst >= 0 && Sane(c, visitors, from) && Ordered(steps, from)
    requires from <= to && (steps != [] ==> steps[|steps| - 1].now <= to)
    requires NeverDeleted(c, visitors, steps, ip)
    ensures (AllowedCount(c, visitors, steps, ip) - c.burst) * 1_000_000_000 <= c.limit * (to - from)
  {
    hide Refill, AllowedCount, Sane, Ordered, NeverDeleted;
    BucketBound(c, visitors, steps, ip, from, to);
    RefillNonNegative(c, to - from);
    var n := AllowedCount(c, visitors, steps, ip) - c.burst;
    RefillIsPaid(c, to - from, n);
  }

  /** Dropping expired entries changes no answer of any run exactly when the time to live, and one
      nanosecond, pays for the whole burst. */
  lemma ExpiryInvisibleIffPaid(c: Config)
    requires c.limit >= 0 && c.burst >= 0 && c.ttl >= 0
    ensures (forall steps :: Ordered(steps, 0) && OnlyExpiry(steps) ==>
               Answers(c, map[], steps) == Answers(c, map[], Requests(steps)))
            <==> (c.ttl + 1) * c.limit >= c.burst * 1_000_000_000
  {
    hide *;
    ExpiryInvisibleIffRefilled(c);
    RefillIsPaid(c, c.ttl + 1, c.burst);
  }

  /** Of any number of requests that come at once, a new client is served exactly its burst. */
  lemma NewClientGetsBurst(c: Config, ip: string, now: int, more: nat)
    requires c.limit >= 0 && c.burst >= 0
    ensures AllowedCount(c, map[], Repeat(ip, now, c.burst) + Repeat(ip, now, more), ip) == c.burst
  {
    hide *;
    var steps := Repeat(ip, now, c.burst) + Repeat(ip, now, more);
    FreshIsFull(c, map[], ip, now);
    RepeatedRequests(c, map[], ip, now, c.burst, Repeat(ip, now, more));
    RepeatIsRequests(ip, now, c.burst);
    RepeatIsRequests(ip, now, more);
    RequestsDeleteNothing(c, map[], steps, ip);
    NothingIsSane(c, now);
    assert Repeat(ip, now, more) + [] == Repeat(ip, now, more);
    RepeatOrdered(ip, now, more, []);
    RepeatOrdered(ip, now, c.burst, Repeat(ip, now, more));
    RequestsArePaid(c, map[], steps, ip, now, now);
  }

  lemma NothingIsSane(c: Config, now: int)
    ensures Sane(c, map[], now) && Ordered([], now)
  {
  }

  /** Expired entries are those whose last request lies more than the time to live back. */
  lemma CleanupKeeps(c: Config, visitors: map<string, Visitor>, now: int, ip: string)
    ensures ip in Unexpired(c, visitors, now) <==> ip in visitors && now - visitors[ip].lastReq <= c.ttl
    ensures ip in Unexpired(c, visitors, now) ==> Unexpired(c, visitors, now)[ip] == visitors[ip]
  {
  }
}
