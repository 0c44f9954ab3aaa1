/** The lockout of user accounts after failed logins. */
module LoginLockout {
  /** Times are nanoseconds after the zero time, which an unused time field holds. */
  datatype Attempt = Attempt(failures: int, lastFail: int, lockedUntil: int)

  datatype Config = Config(maxFailures: int, lockout: int, window: int)

  const NO_ATTEMPT := Attempt(0, 0, 0)

  type Attempts = map<string, Attempt>

  // ----- what the operations do -----

  function Failed(c: Config, a: Attempt, now: int): Attempt {
    var failures := (if now - a.lastFail > c.window then 0 else a.failures) + 1;
    Attempt(failures, now, if failures >= c.maxFailures then now + c.lockout else a.lockedUntil)
  }

  function AfterFailure(c: Config, m: Attempts, key: string, now: int): Attempts {
    m[key := Failed(c, if key in m then m[key] else NO_ATTEMPT, now)]
  }

  /** Whether the account is locked, and for how long. */
  function Status(c: Config, m: Attempts, key: string, now: int): (bool, int) {
    if key !in m then (false, 0)
    else
      var a := m[key];
      if a.lockedUntil > now then (true, a.lockedUntil - now)
      else if a.failures >= c.maxFailures && now - a.lastFail <= c.window then (true, c.window - (now - a.lastFail))
      else (false, 0)
  }

  predicate Stale(c: Config, a: Attempt, now: int) {
    now - a.lastFail > c.window && now > a.lockedUntil
  }

  function AfterCleanup(c: Config, m: Attempts, now: int): Attempts {
    map key | key in m && !Stale(c, m[key], now) :: m[key]
  }

  class UserRateLimiter {
    var attempts: Attempts
    const config: Config
    const normalize: string -> string    // lower case, white space trimmed

    constructor (maxFailures: int, lockout: int, window: int, normalize: string -> string)
      ensures attempts == map[] && config == Config(maxFailures, lockout, window) && this.normalize == normalize
    {
      attempts := map[];
      config := Config(maxFailures, lockout, window);
      this.normalize := normalize;
    }

    method RecordFailedAttempt(email: string, now: int)
      modifies this
      ensures attempts == AfterFailure(config, old(attempts), normalize(email), now)
    {
      var key := normalize(email);
      var a := NO_ATTEMPT;
      if key in attempts {
        a := attempts[key];
      } else {
        attempts := attempts[key := a];
      }
      if now - a.lastFail > config.window {
        a := a.(failures := 0);
      }
      a := a.(failures := a.failures + 1);
      a := a.(lastFail := now);
      if a.failures >= config.maxFailures {
        a := a.(lockedUntil := now + config.lockout);
      }
      attempts := attempts[key := a];
    }

    method IsLocked(email: string, now: int) returns (locked: bool, remaining: int)
      ensures (locked, remaining) == Status(config, attempts, normalize(email), now)
    {
      var key := normalize(email);
      if key !in attempts {
        return false, 0;
      }
      var a := attempts[key];
      if a.lockedUntil > now {
        return true, a.lockedUntil - now;
      }
      if a.failures >= config.maxFailures && now - a.lastFail <= config.window {
        remaining := config.window - (now - a.lastFail);
        return true, remaining;
      }
      return false, 0;
    }

    method RecordSuccessfulAttempt(email: string)
      modifies this
      ensures attempts == old(attempts) - {normalize(email)}
    {
      attempts := attempts - {normalize(email)};
    }

    method Cleanup(now: int)
      modifies this
      ensures attempts == AfterCleanup(config, old(attempts), now)
    {
      var todo := attempts.Keys;
      while todo != {}
        invariant todo <= attempts.Keys <= old(attempts).Keys
        invariant forall key :: key in attempts ==> attempts[key] == old(attempts)[key]
        invariant forall key :: key in old(attempts) ==>
                    (key in attempts <==> key in todo || !Stale(config, old(attempts)[key], now))
        decreases todo
      {
        var key :| key in todo;
        todo := todo - {key};
        if Stale(config, attempts[key], now) {
          attempts := attempts - {key};
        }
      }
    }
  }

  // ----- runs -----

  /** What happens to the limiter; `key` is a normalized address. */
  datatype Event = Failure(key: string, now: int) | Success(key: string, now: int)
                 | Query(key: string, now: int) | Cleanup(now: int)

  function Next(c: Config, m: Attempts, e: Event): Attempts {
    match e
    case Failure(key, now) => AfterFailure(c, m, key, now)
    case Success(key, _) => m - {key}
    case Query(_, _) => m
    case Cleanup(now) => AfterCleanup(c, m, now)
  }

  function After(c: Config, m: Attempts, run: seq<Event>): Attempts {
    if run == [] then m else Next(c, After(c, m, run[..|run| - 1]), run[|run| - 1])
  }

  /** The answers to the queries of a run. */
  function Answers(c: Config, m: Attempts, run: seq<Event>): seq<(bool, int)>
    decreases |run|
  {
    if run == [] then []
    else (if run[0].Query? then [Status(c, m, run[0].key, run[0].now)] else [])
         + Answers(c, Next(c, m, run[0]), run[1..])
  }

  function WithoutCleanup(run: seq<Event>): seq<Event> {
    if run == [] then []
    else (if run[0].Cleanup? then [] else [run[0]]) + WithoutCleanup(run[1..])
  }

  ghost predicate Ordered(run: seq<Event>, from: int) {
    run != [] ==> from <= run[0].now && Ordered(run[1..], run[0].now)
  }

  // ----- cleanup cannot be observed -----

  /** Equal, except for locks that have both run out. */
  predicate Alike(a: Attempt, b: Attempt, now: int) {
    && a.failures == b.failures && a.lastFail == b.lastFail
    && (a.lockedUntil == b.lockedUntil || (a.lockedUntil <= now && b.lockedUntil <= now))
  }

  /** An account that is known only without cleanup has run out of window and lock. */
  ghost predicate Simulates(c: Config, pruned: Attempts, full: Attempts, now: int) {
    && (forall key :: key in pruned ==> key in full && Alike(pruned[key], full[key], now))
    && (forall key :: key in full && key !in pruned ==>
          now - full[key].lastFail > c.window && full[key].lockedUntil <= now)
  }

  lemma SimulatesLater(c: Config, pruned: Attempts, full: Attempts, from: int, now: int)
    requires Simulates(c, pruned, full, from) && from <= now
    ensures Simulates(c, pruned, full, now)
  {
  }

  lemma FailedAlike(c: Config, a: Attempt, b: Attempt, now: int)
    requires Alike(a, b, now)
    ensures Alike(Failed(c, a, now), Failed(c, b, now), now)
  {
  }

  lemma StepSimulates(c: Config, pruned: Attempts, full: Attempts, e: Event)
    requires Simulates(c, pruned, full, e.now) && e.now >= 0
    ensures Simulates(c, Next(c, pruned, e), if e.Cleanup? then full else Next(c, full, e), e.now)
    ensures e.Query? ==> Status(c, pruned, e.key, e.now) == Status(c, full, e.key, e.now)
  {
    if e.Failure? && e.key in pruned {
      FailedAlike(c, pruned[e.key], full[e.key], e.now);
    }
  }

  lemma {:induction false} CleanupInvisibleFrom(c: Config, pruned: Attempts, full: Attempts, run: seq<Event>, from: int)
    requires Simulates(c, pruned, full, from) && Ordered(run, from) && from >= 0
    ensures Answers(c, pruned, run) == Answers(c, full, WithoutCleanup(run))
    decreases |run|
  {
    hide Simulates, Status, Next;
    if run != [] {
      var e := run[0];
      SimulatesLater(c, pruned, full, from, e.now);
      StepSimulates(c, pruned, full, e);
      if e.Cleanup? {
        CleanupInvisibleFrom(c, Next(c, pruned, e), full, run[1..], e.now);
        assert WithoutCleanup(run) == WithoutCleanup(run[1..]);
      } else {
        CleanupInvisibleFrom(c, Next(c, pruned, e), Next(c, full, e), run[1..], e.now);
        assert WithoutCleanup(run)[1..] == WithoutCleanup(run[1..]);
      }
    }
  }

  /** In every run the answers are those of a limiter that never cleans up. */
  lemma CleanupInvisible(c: Config, run: seq<Event>)
    requires Ordered(run, 0)
    ensures Answers(c, map[], run) == Answers(c, map[], WithoutCleanup(run))
  {
    CleanupInvisibleFrom(c, map[], map[], run, 0);
  }

  // ----- locked means: a run of failures -----

  /** Times of the failures of an account since its last success. */
  function FailureTimes(run: seq<Event>, key: string): seq<int> {
    if run == [] then []
    else
      var e, before := run[|run| - 1], FailureTimes(run[..|run| - 1], key);
      if e.Failure? && e.key == key then before + [e.now]
      else if e.Success? && e.key == key then []
      else before
  }

  /** Failure `j` ends a run of at least `maxFailures` failures, each within the window of the one
      before. */
  ghost predicate EndsRun(c: Config, times: seq<int>, j: nat)
    requires j < |times|
  {
    && c.maxFailures <= j + 1
    && forall i :: 0 < i <= j && j + 1 - c.maxFailures < i ==> GapWithin(c, times, i)
  }

  predicate GapWithin(c: Config, times: seq<int>, i: nat)
    requires 0 < i < |times|
  {
    times[i] - times[i - 1] <= c.window
  }

  /** The account is locked, told from its failures alone. */
  ghost predicate LockedBy(c: Config, times: seq<int>, now: int) {
    || (exists j :: 0 <= j < |times| && EndsRun(c, times, j) && times[j] + c.lockout > now)
    || (times != [] && EndsRun(c, times, |times| - 1) && now - times[|times| - 1] <= c.window)
  }

  /** The record that a list of failures leaves. */
  function RecordOf(c: Config, times: seq<int>): Attempt {
    if times == [] then NO_ATTEMPT
    else Failed(c, RecordOf(c, times[..|times| - 1]), times[|times| - 1])
  }

  /** The state of a limiter that skips the cleanups of the run. */
  function AfterSkipping(c: Config, run: seq<Event>): Attempts {
    if run == [] then map[]
    else
      var before, e := AfterSkipping(c, run[..|run| - 1]), run[|run| - 1];
      if e.Cleanup? then before else Next(c, before, e)
  }

  lemma {:induction false} StateIsRecord(c: Config, run: seq<Event>, key: string)
    ensures var m, times := AfterSkipping(c, run), FailureTimes(run, key);
            (key in m <==> times != []) && (key in m ==> m[key] == RecordOf(c, times))
  {
    hide Failed;
    if run != [] {
      StateIsRecord(c, run[..|run| - 1], key);
      var times, e := FailureTimes(run[..|run| - 1], key), run[|run| - 1];
      if e.Failure? && e.key == key {
        assert (times + [e.now])[..|times|] == times;
      }
    }
  }

  /** The clock never goes back, and the last reading is at most `now`. */
  ghost predicate Timely(run: seq<Event>, now: int) {
    if run == [] then now >= 0
    else run[|run| - 1].now <= now && Timely(run[..|run| - 1], run[|run| - 1].now)
  }

  lemma {:induction false} StateSimulated(c: Config, run: seq<Event>, now: int)
    requires Timely(run, now)
    ensures Simulates(c, After(c, map[], run), AfterSkipping(c, run), now) && now >= 0
    decreases |run|
  {
    hide Simulates, Next;
    if run != [] {
      var before, e := run[..|run| - 1], run[|run| - 1];
      StateSimulated(c, before, e.now);
      StepSimulates(c, After(c, map[], before), AfterSkipping(c, before), e);
      SimulatesLater(c, After(c, map[], run), AfterSkipping(c, run), e.now, now);
    } else {
      assert Simulates(c, map[], map[], now) by { EmptySimulates(c, now); }
    }
  }

  lemma EmptySimulates(c: Config, now: int)
    ensures Simulates(c, map[], map[], now)
  {
  }

  /** The failure counter reaches `m` exactly when the last `m` failures form a run. */
  lemma {:induction false} CounterMeansRun(c: Config, times: seq<int>, m: int)
    requires times != []
    ensures RecordOf(c, times).lastFail == times[|times| - 1] && RecordOf(c, times).failures >= 1
    ensures RecordOf(c, times).failures >= m <==>
            m <= |times| && forall i :: 0 < i < |times| && |times| - m < i ==> GapWithin(c, times, i)
  {
    var n := |times| - 1;
    var before := times[..n];
    if before != [] {
      CounterMeansRun(c, before, m - 1);
      assert forall i :: 0 < i < n ==> GapWithin(c, before, i) == GapWithin(c, times, i);
      if m >= 2 {
        assert GapWithin(c, times, n) <==> times[n] - RecordOf(c, before).lastFail <= c.window;
      }
    }
  }

  ghost predicate Rising(times: seq<int>, now: int) {
    forall i, j :: 0 <= i <= j < |times| ==> times[i] <= times[j] <= now
  }

  lemma {:induction false} FailureTimesRise(run: seq<Event>, key: string, now: int)
    requires Timely(run, now)
    ensures Rising(FailureTimes(run, key), now)
    decreases |run|
  {
    if run != [] {
      FailureTimesRise(run[..|run| - 1], key, run[|run| - 1].now);
    }
  }

  lemma EndsRunOfPrefix(c: Config, times: seq<int>, n: nat, j: nat)
    requires j < n <= |times|
    ensures EndsRun(c, times[..n], j) <==> EndsRun(c, times, j)
  {
    assert forall i :: 0 < i <= j ==> GapWithin(c, times[..n], i) == GapWithin(c, times, i);
  }

  /** The lock of the record lasts as long as that of some failure that ends a run. */
  lemma {:induction false} LockMeansRun(c: Config, times: seq<int>, now: int)
    requires now >= 0 && Rising(times, now)
    ensures RecordOf(c, times).lockedUntil > now <==>
            exists j :: 0 <= j < |times| && EndsRun(c, times, j) && times[j] + c.lockout > now
  {
    hide EndsRun, Failed;
    if times != [] {
      var n := |times| - 1;
      var before := times[..n];
      assert forall i :: 0 <= i < n ==> before[i] == times[i];
      LockMeansRun(c, before, now);
      LastEndsRun(c, times);
      LockOfFailed(c, RecordOf(c, before), times[n]);
      forall j | 0 <= j < n ensures EndsRun(c, before, j) <==> EndsRun(c, times, j) {
        EndsRunOfPrefix(c, times, n, j);
      }
    }
  }

  lemma LockOfFailed(c: Config, a: Attempt, now: int)
    ensures Failed(c, a, now).lockedUntil ==
            if Failed(c, a, now).failures >= c.maxFailures then now + c.lockout else a.lockedUntil
  {
  }

  lemma LastEndsRun(c: Config, times: seq<int>)
    requires times != []
    ensures EndsRun(c, times, |times| - 1) <==> RecordOf(c, times).failures >= c.maxFailures
  {
    CounterMeansRun(c, times, c.maxFailures);
  }

  /** In every run, cleanups included, an account is locked exactly when since its last success
      some failure ended a run of failures and its lockout is not over, or the latest failure
      ended such a run and lies within the window. */
  lemma LockedIffRunOfFailures(c: Config, run: seq<Event>, key: string, now: int)
    requires Timely(run, now)
    ensures Status(c, After(c, map[], run), key, now).0 <==> LockedBy(c, FailureTimes(run, key), now)
  {
    hide Simulates, RecordOf, EndsRun, After, AfterSkipping;
    var times := FailureTimes(run, key);
    StateSimulated(c, run, now);
    StepSimulates(c, After(c, map[], run), AfterSkipping(c, run), Query(key, now));
    StateIsRecord(c, run, key);
    FailureTimesRise(run, key, now);
    LockMeansRun(c, times, now);
    if times != [] {
      LastEndsRun(c, times);
      CounterMeansRun(c, times, 0);
    }
  }

  /** The lock of the record is that of the latest failure that ends a run. */
  lemma {:induction false} LockIsOfLatestRun(c: Config, times: seq<int>, now: int) returns (j: nat)
    requires Rising(times, now) && exists i :: 0 <= i < |times| && EndsRun(c, times, i)
    ensures j < |times| && EndsRun(c, times, j) && RecordOf(c, times).lockedUntil == times[j] + c.lockout
    ensures forall i :: 0 <= i < |times| && EndsRun(c, times, i) ==> times[i] <= times[j]
    decreases |times|
  {
    hide EndsRun, Failed;
    var n := |times| - 1;
    var before := times[..n];
    assert forall i :: 0 <= i < n ==> before[i] == times[i];
    forall i | 0 <= i < n ensures EndsRun(c, before, i) <==> EndsRun(c, times, i) {
      EndsRunOfPrefix(c, times, n, i);
    }
    LastEndsRun(c, times);
    LockOfFailed(c, RecordOf(c, before), times[n]);
    if EndsRun(c, times, n) {
      j := n;
    } else {
      j := LockIsOfLatestRun(c, before, now);
    }
  }

  /** How long the account stays locked, told from its failures alone: until the longest lockout of a
      failure that ended a run is over, or else for the rest of the window after the latest. */
  ghost predicate RemainsLocked(c: Config, times: seq<int>, now: int, remaining: int) {
    if exists j :: 0 <= j < |times| && EndsRun(c, times, j) && times[j] + c.lockout > now then
      && (exists j :: 0 <= j < |times| && EndsRun(c, times, j) && remaining == times[j] + c.lockout - now)
      && (forall j :: 0 <= j < |times| && EndsRun(c, times, j) ==> times[j] + c.lockout - now <= remaining)
    else if times != [] && EndsRun(c, times, |times| - 1) && now - times[|times| - 1] <= c.window then
      remaining == c.window - (now - times[|times| - 1])
    else remaining == 0
  }

  /** In every run, cleanups included, the time that is reported is that one. */
  lemma RemainingFromHistory(c: Config, run: seq<Event>, key: string, now: int)
    requires Timely(run, now)
    ensures RemainsLocked(c, FailureTimes(run, key), now, Status(c, After(c, map[], run), key, now).1)
  {
    hide Simulates, RecordOf, EndsRun, After, AfterSkipping;
    var times := FailureTimes(run, key);
    StateSimulated(c, run, now);
    StepSimulates(c, After(c, map[], run), AfterSkipping(c, run), Query(key, now));
    StateIsRecord(c, run, key);
    FailureTimesRise(run, key, now);
    LockMeansRun(c, times, now);
    if times != [] {
      LastEndsRun(c, times);
      CounterMeansRun(c, times, 0);
    }
    if exists i :: 0 <= i < |times| && EndsRun(c, times, i) {
      var j := LockIsOfLatestRun(c, times, now);
    }
  }

  /** A cleanup forgets exactly the accounts whose latest failure is out of the window and whose lock
      is over. */
  lemma CleanupForgets(c: Config, m: Attempts, now: int, key: string)
    ensures key in AfterCleanup(c, m, now) <==>
            key in m && (now - m[key].lastFail <= c.window || now <= m[key].lockedUntil)
    ensures key in AfterCleanup(c, m, now) ==> AfterCleanup(c, m, now)[key] == m[key]
  {
  }
}
