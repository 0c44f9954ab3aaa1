/** The audit hash chain: its verifier, and what a verified chain rules out. */
module AuditChain {
  import opened Common
  import opened AuditEncoding

  function Integral<M>(env: Encoders<M>, e: Event<M>): bool {
    HashOf(env, e) == Ok(e.hash)
  }

  /** `VerifyIntegrity`. */
  method VerifyIntegrity<M>(env: Encoders<M>, e: Event<M>) returns (ok: bool)
    ensures ok == Integral(env, e)
  {
    var recomputed := ComputeHash(env, e);
    if recomputed.Err? {
      return false;
    }
    return e.hash == recomputed.value;
  }

  // ----- the verifier -----

  /** May event `e` follow an event with hash `prev`, where `None` stands for the start of the log
      and for a predecessor that failed? */
  predicate Accepts<M>(env: Encoders<M>, e: Option<Event<M>>, prev: Option<string>) {
    && e.Some? && Integral(env, e.value)
    && (e.value.previousHash.Some? && prev.Some? ==> e.value.previousHash == prev)
  }

  function HashAfter<M>(env: Encoders<M>, e: Option<Event<M>>, prev: Option<string>): Option<string> {
    if Accepts(env, e, prev) then Some(e.value.hash) else None
  }

  /** Number of events that fail, walking from a predecessor with hash `prev`. */
  function Failures<M>(env: Encoders<M>, log: seq<Option<Event<M>>>, prev: Option<string>): (n: nat)
    ensures n <= |log|
  {
    if log == [] then 0
    else (if Accepts(env, log[0], prev) then 0 else 1) + Failures(env, log[1..], HashAfter(env, log[0], prev))
  }

  /** `VerifyChain`. The last result says whether an error is returned. */
  method VerifyChain<M>(env: Encoders<M>, events: seq<Option<Event<M>>>)
      returns (verified: nat, failed: nat, err: bool)
    ensures failed == Failures(env, events, None) && verified + failed == |events| && err == (failed > 0)
  {
    hide HashOf;
    verified, failed := 0, 0;
    var prevHash: Option<string> := None;
    assert events[0..] == events;
    for i := 0 to |events|
      invariant verified + failed == i
      invariant failed + Failures(env, events[i..], prevHash) == Failures(env, events, None)
    {
      var ev := events[i];
      assert events[i..][0] == ev && events[i..][1..] == events[i + 1..];
      if ev.None? {
        failed, prevHash := failed + 1, None;
        continue;
      }
      var ok := VerifyIntegrity(env, ev.value);
      if !ok {
        failed, prevHash := failed + 1, None;
        continue;
      }
      if ev.value.previousHash.Some? && prevHash.Some? && ev.value.previousHash.value != prevHash.value {
        failed, prevHash := failed + 1, None;
        continue;
      }
      verified, prevHash := verified + 1, Some(ev.value.hash);
    }
    err := failed > 0;
  }

  /** The meaning of "no event failed": every event is present and hashes to its own hash, and
      every link that is present fits. */
  predicate LinkFits<M>(log: seq<Option<Event<M>>>, i: nat)
    requires 0 < i < |log|
  {
    log[i - 1].Some? && log[i].Some? && log[i].value.previousHash.Some? ==>
      log[i].value.previousHash.value == log[i - 1].value.hash
  }

  ghost predicate Intact<M>(env: Encoders<M>, log: seq<Option<Event<M>>>) {
    && (forall i :: 0 <= i < |log| ==> log[i].Some? && Integral(env, log[i].value))
    && (forall i :: 0 < i < |log| ==> LinkFits(log, i))
  }

  ghost predicate Follows<M>(log: seq<Option<Event<M>>>, prev: Option<string>) {
    log != [] && log[0].Some? && log[0].value.previousHash.Some? && prev.Some? ==>
      log[0].value.previousHash == prev
  }

  lemma {:induction false} NoFailureFrom<M>(env: Encoders<M>, log: seq<Option<Event<M>>>, prev: Option<string>)
    ensures Failures(env, log, prev) == 0 <==> Intact(env, log) && Follows(log, prev)
  {
    hide Integral;
    if log != [] {
      var rest := log[1..];
      NoFailureFrom(env, rest, HashAfter(env, log[0], prev));
      if Accepts(env, log[0], prev) {
        IntactCons(env, log[0].value, rest);
        assert log == [Some(log[0].value)] + rest;
      }
    }
  }

  lemma IntactCons<M>(env: Encoders<M>, e: Event<M>, rest: seq<Option<Event<M>>>)
    requires Integral(env, e)
    ensures Intact(env, [Some(e)] + rest) <==> Intact(env, rest) && Follows(rest, Some(e.hash))
  {
    hide Integral;
    var log := [Some(e)] + rest;
    assert forall i :: 0 < i < |log| ==> log[i] == rest[i - 1];
    if Intact(env, log) {
      assert forall i :: 0 <= i < |rest| ==> rest[i] == log[i + 1];
      forall i | 0 < i < |rest| ensures LinkFits(rest, i) {
        assert LinkFits(log, i + 1);
      }
      assert rest != [] ==> LinkFits(log, 1);
    }
    if Intact(env, rest) && Follows(rest, Some(e.hash)) {
      forall i | 0 < i < |log| ensures LinkFits(log, i) {
        assert i > 1 ==> LinkFits(rest, i - 1);
      }
    }
  }

  /** Nothing fails exactly when the log is intact. */
  lemma NoFailureIffIntact<M>(env: Encoders<M>, log: seq<Option<Event<M>>>)
    ensures Failures(env, log, None) == 0 <==> Intact(env, log)
  {
    NoFailureFrom(env, log, None);
  }

  // ----- complete chains -----

  /** A log written by the recorder: intact, rooted in an event without predecessor, and linked
      throughout. */
  predicate Linked<M>(log: seq<Event<M>>, i: nat)
    requires 0 < i < |log|
  {
    log[i].previousHash == Some(log[i - 1].hash)
  }

  ghost predicate Chain<M>(env: Encoders<M>, log: seq<Event<M>>) {
    && log != [] && log[0].previousHash.None?
    && (forall i :: 0 <= i < |log| ==> Integral(env, log[i]))
    && (forall i :: 0 < i < |log| ==> Linked(log, i))
  }

  function Present<M>(log: seq<Event<M>>): seq<Option<Event<M>>> {
    seq(|log|, i requires 0 <= i < |log| => Some(log[i]))
  }

  /** A chain is what passes the verifier, starts without a predecessor and omits no link. */
  lemma ChainIffVerified<M>(env: Encoders<M>, log: seq<Event<M>>)
    ensures Chain(env, log) <==>
            log != [] && log[0].previousHash.None? && (forall i :: 0 < i < |log| ==> log[i].previousHash.Some?)
            && Failures(env, Present(log), None) == 0
  {
    hide Integral;
    var all := Present(log);
    NoFailureIffIntact(env, all);
    assert forall i :: 0 <= i < |log| ==> all[i] == Some(log[i]);
    if Chain(env, log) {
      forall i | 0 < i < |log| ensures LinkFits(all, i) && log[i].previousHash.Some? { assert Linked(log, i); }
    } else if Intact(env, all) && log != [] && log[0].previousHash.None? {
      assert forall i :: 0 <= i < |log| ==> Integral(env, all[i].value) ==> Integral(env, log[i]);
      var i :| 0 < i < |log| && !Linked(log, i);
      assert LinkFits(all, i);
    }
  }

  /** `NewAuditEvent`: the hash is computed over the event it is stored in. */
  method NewAuditEvent<M>(env: Encoders<M>, id: string, organization: string, actor: string, action: string,
                          resource: string, resourceId: Option<string>, outcome: string,
                          requestId: Option<string>, metadata: M, previousHash: Option<string>, now: int)
      returns (r: Result<Event<M>, Error>)
    ensures r.Err? <==> env.json(metadata).None?
    ensures r.Ok? ==>
              && Integral(env, r.value)
              && r.value == Event(id, organization, Some(actor), action, resource, resourceId, outcome, requestId,
                                  metadata, now, previousHash, r.value.hash)
  {
    hide Encoding;
    var ev := Event(id, organization, Some(actor), action, resource, resourceId, outcome, requestId,
                    metadata, now, previousHash, "");
    var hash := ComputeHash(env, ev);
    if hash.Err? {
      return Err(hash.error);
    }
    r := Ok(ev.(hash := hash.value));
    HashIgnoresHash(env, ev, hash.value);
  }

  lemma HashIgnoresHash<M>(env: Encoders<M>, e: Event<M>, hash: string)
    ensures HashOf(env, e.(hash := hash)) == HashOf(env, e)
  {
  }

  /** Recording extends a chain: an event whose predecessor hash is the last hash of the chain. */
  lemma RecordingExtendsChain<M>(env: Encoders<M>, log: seq<Event<M>>, e: Event<M>)
    requires Chain(env, log) && Integral(env, e) && e.previousHash == Some(log[|log| - 1].hash)
    ensures Chain(env, log + [e])
  {
    hide Integral;
    var all := log + [e];
    forall i | 0 < i < |all| ensures Linked(all, i) {
      assert i < |log| ==> Linked(log, i);
    }
  }

  lemma HashesAreClean<M(!new)>(env: Encoders<M>, log: seq<Event<M>>, i: nat)
    requires Sound(env) && Chain(env, log) && i < |log|
    ensures env.json(log[i].metadata).Some? && log[i].hash == env.hash(Encoding(env, log[i]))
    ensures log[i].hash != "" && NoBar(log[i].hash)
    ensures NoBar(OrEmpty(log[i].previousHash))
    ensures OrEmpty(log[i].previousHash) == (if i == 0 then "" else log[i - 1].hash)
  {
    hide Encoding, NoBar;
    assert HashOf(env, log[i]) == Ok(log[i].hash);
    if i > 0 {
      assert Linked(log, i);
      assert HashOf(env, log[i - 1]) == Ok(log[i - 1].hash);
    } else {
      assert NoBar("") by { EmptyHasNoBar(); }
    }
  }

  lemma EmptyHasNoBar()
    ensures NoBar("")
  {
  }

  /** Events with one hash have one encoding and one predecessor hash. */
  lemma EqualHashes<M(!new)>(env: Encoders<M>, a: seq<Event<M>>, b: seq<Event<M>>, i: nat, j: nat)
    requires Sound(env) && Chain(env, a) && Chain(env, b) && i < |a| && j < |b| && a[i].hash == b[j].hash
    ensures env.json(a[i].metadata).Some? && env.json(b[j].metadata).Some?
    ensures Encoding(env, a[i]) == Encoding(env, b[j])
    ensures (i == 0 <==> j == 0) && (i > 0 ==> a[i - 1].hash == b[j - 1].hash)
  {
    hide Encoding, NoBar, Chain, Sound;
    HashesAreClean(env, a, i);
    HashesAreClean(env, b, j);
    if i > 0 { HashesAreClean(env, a, i - 1); }
    if j > 0 { HashesAreClean(env, b, j - 1); }
    HashInjective(env, Encoding(env, a[i]), Encoding(env, b[j]));
    EncodingDeterminesPrevious(env, a[i], b[j]);
  }

  lemma HashInjective<M(!new)>(env: Encoders<M>, x: string, y: string)
    requires Sound(env) && env.hash(x) == env.hash(y)
    ensures x == y
  {
  }

  /** Tamper evidence: two chains that end in the same hash are of one length and agree on the
      encoding of every event. */
  lemma {:induction false} LastHashDeterminesLog<M(!new)>(env: Encoders<M>, a: seq<Event<M>>, b: seq<Event<M>>)
    requires Sound(env) && Chain(env, a) && Chain(env, b) && a[|a| - 1].hash == b[|b| - 1].hash
    ensures |a| == |b|
    ensures forall i :: 0 <= i < |a| ==> env.json(a[i].metadata).Some? && env.json(b[i].metadata).Some?
                                         && Encoding(env, a[i]) == Encoding(env, b[i])
    decreases |a|
  {
    hide Encoding, Sound, Integral;
    var m, n := |a| - 1, |b| - 1;
    EqualHashes(env, a, b, m, n);
    if m > 0 {
      ChainPrefix(env, a, m);
      ChainPrefix(env, b, n);
      LastHashDeterminesLog(env, a[..m], b[..n]);
      assert forall i :: 0 <= i < m ==> a[..m][i] == a[i] && b[..m][i] == b[i];
    }
  }

  lemma ChainPrefix<M>(env: Encoders<M>, log: seq<Event<M>>, n: nat)
    requires Chain(env, log) && 0 < n <= |log|
    ensures Chain(env, log[..n])
  {
    hide Integral;
    forall i | 0 < i < n ensures Linked(log[..n], i) { assert Linked(log, i); }
  }

  /** In particular the contents agree, where the free-text fields contain no bar. */
  lemma LastHashDeterminesContent<M(!new)>(env: Encoders<M>, a: seq<Event<M>>, b: seq<Event<M>>, i: nat)
    requires Sound(env) && Chain(env, a) && Chain(env, b) && a[|a| - 1].hash == b[|b| - 1].hash
    requires i < |a| && (i < |b| ==> WellTyped(a[i]) && WellTyped(b[i]) && Clean(a[i]) && Clean(b[i]))
    ensures i < |b| && SameContent(a[i], b[i])
  {
    hide Sound, Chain, WellTyped, Clean, Encoding, SameContent;
    LastHashDeterminesLog(env, a, b);
    EncodingDeterminesContent(env, a[i], b[i]);
  }

  /** A log whose free-text fields contain no bar is determined by its last hash: every chain that ends
      in that hash has its contents, whatever bars it may contain. */
  lemma LastHashDeterminesCleanLog<M(!new)>(env: Encoders<M>, a: seq<Event<M>>, b: seq<Event<M>>)
    requires Sound(env) && TextsStandAlone(env) && Chain(env, a) && Chain(env, b)
    requires a[|a| - 1].hash == b[|b| - 1].hash
    requires forall i :: 0 <= i < |a| ==> WellTyped(a[i]) && Clean(a[i])
    requires forall i :: 0 <= i < |b| ==> WellTyped(b[i])
    ensures |a| == |b| && forall i :: 0 <= i < |a| ==> SameContent(a[i], b[i])
  {
    hide Sound, Chain, WellTyped, Clean, Encoding, SameContent, TextsStandAlone;
    LastHashDeterminesLog(env, a, b);
    forall i | 0 <= i < |a| ensures SameContent(a[i], b[i]) {
      CleanEventIsUnmistakable(env, a[i], b[i]);
    }
  }

  /** No two events of a chain share a hash. */
  lemma {:induction false} HashesAreDistinct<M(!new)>(env: Encoders<M>, log: seq<Event<M>>, i: nat, j: nat)
    requires Sound(env) && Chain(env, log) && i < j < |log|
    ensures log[i].hash != log[j].hash
    decreases i
  {
    hide Sound, Chain, Encoding;
    if log[i].hash == log[j].hash {
      EqualHashes(env, log, log, i, j);
      HashesAreDistinct(env, log, i - 1, j - 1);
    }
  }

  // ----- tampering -----

  lemma {:induction false} FailuresOfConcat<M>(env: Encoders<M>, a: seq<Option<Event<M>>>, b: seq<Option<Event<M>>>,
                                              prev: Option<string>)
    requires a != [] && Failures(env, a, prev) == 0
    ensures Failures(env, a + b, prev) ==
            Failures(env, b, if a[|a| - 1].Some? then Some(a[|a| - 1].value.hash) else None)
  {
    hide Integral;
    assert (a + b)[1..] == a[1..] + b;
    if |a| > 1 {
      assert a[1..][|a[1..]| - 1] == a[|a| - 1];
      FailuresOfConcat(env, a[1..], b, HashAfter(env, a[0], prev));
    } else {
      assert a[1..] + b == b;
    }
  }

  lemma SegmentVerifies<M>(env: Encoders<M>, log: seq<Event<M>>, i: nat, j: nat)
    requires Chain(env, log) && i <= j <= |log|
    ensures Failures(env, Present(log)[i..j], None) == 0
  {
    hide Integral;
    var s := Present(log)[i..j];
    assert forall k :: 0 <= k < |s| ==> s[k] == Some(log[i + k]);
    forall k | 0 < k < |s| ensures LinkFits(s, k) { assert Linked(log, i + k); }
    NoFailureIffIntact(env, s);
  }

  /** Changing one event without recomputing its hash makes exactly that event fail. */
  lemma ChangedEventFailsAlone<M(!new)>(env: Encoders<M>, log: seq<Event<M>>, k: nat, e: Event<M>)
    requires Sound(env) && Chain(env, log) && k < |log| && e.hash == log[k].hash
    requires env.json(e.metadata).None? || env.json(log[k].metadata).None?
             || Encoding(env, e) != Encoding(env, log[k])
    ensures Failures(env, Present(log)[k := Some(e)], None) == 1
  {
    hide Failures, Chain, Encoding;
    NotIntegral(env, log, k, e);
    var all := Present(log);
    var before, after := all[..k], all[k + 1..];
    SegmentVerifies(env, log, 0, k);
    SegmentVerifies(env, log, k + 1, |log|);
    assert all[0..k] == before && all[k + 1..|log|] == after;
    FailsFirst(env, Some(e), after, if k == 0 then None else Some(log[k - 1].hash));
    if k > 0 {
      FailuresOfConcat(env, before, [Some(e)] + after, None);
      assert before[|before| - 1] == Some(log[k - 1]);
    }
    assert all[k := Some(e)] == before + ([Some(e)] + after);
    assert k == 0 ==> before + ([Some(e)] + after) == [Some(e)] + after;
  }

  lemma NotIntegral<M(!new)>(env: Encoders<M>, log: seq<Event<M>>, k: nat, e: Event<M>)
    requires Sound(env) && Chain(env, log) && k < |log| && e.hash == log[k].hash
    requires env.json(e.metadata).None? || env.json(log[k].metadata).None?
             || Encoding(env, e) != Encoding(env, log[k])
    ensures !Integral(env, e)
  {
    hide Encoding, Chain, Sound;
    HashesAreClean(env, log, k);
    if Integral(env, e) {
      HashInjective(env, Encoding(env, e), Encoding(env, log[k]));
    }
  }

  lemma FailsFirst<M>(env: Encoders<M>, e: Option<Event<M>>, after: seq<Option<Event<M>>>, prev: Option<string>)
    requires !Accepts(env, e, prev)
    ensures Failures(env, [e] + after, prev) == 1 + Failures(env, after, None)
  {
    hide Accepts;
    assert ([e] + after)[1..] == after;
  }

  /** Deleting an event is noticed, by exactly one failure, exactly when it is neither the first
      nor the last. */
  lemma DeletionNoticedIffInterior<M(!new)>(env: Encoders<M>, log: seq<Event<M>>, k: nat)
    requires Sound(env) && Chain(env, log) && k < |log|
    ensures Failures(env, Present(log)[..k] + Present(log)[k + 1..], None) == if 0 < k < |log| - 1 then 1 else 0
  {
    hide Failures, Encoding, Sound, Integral, Accepts;
    var all := Present(log);
    var before, after := all[..k], all[k + 1..];
    SegmentVerifies(env, log, 0, k);
    SegmentVerifies(env, log, k + 1, |log|);
    assert all[0..k] == before && all[k + 1..|log|] == after;
    if k == 0 {
      assert before + after == after;
    } else if k == |log| - 1 {
      assert before + after == before;
    } else {
      var e := log[k + 1];
      assert Linked(log, k + 1);
      FailuresOfConcat(env, before, after, None);
      assert before[|before| - 1] == Some(log[k - 1]);
      HashesAreDistinct(env, log, k - 1, k);
      assert after[0] == Some(e);
      SegmentVerifies(env, log, k + 2, |log|);
      assert all[k + 2..|log|] == after[1..];
      LinkMismatch(env, e, Some(log[k - 1].hash));
      FailsFirst(env, Some(e), after[1..], Some(log[k - 1].hash));
      assert after == [Some(e)] + after[1..];
    }
  }

  lemma LinkMismatch<M>(env: Encoders<M>, e: Event<M>, prev: Option<string>)
    requires prev.Some? && e.previousHash.Some? && e.previousHash != prev
    ensures !Accepts(env, Some(e), prev)
  {
  }

  // ----- maintenance -----

  function Reversed<T>(s: seq<T>): (r: seq<T>)
    ensures |r| == |s| && forall i :: 0 <= i < |s| ==> r[i] == s[|s| - 1 - i]
  {
    seq(|s|, i requires 0 <= i < |s| => s[|s| - 1 - i])
  }

  /** The loop of `VerifyOrganization` that swaps the rows from both ends. */
  method ReverseRows<M>(events: array<Option<Event<M>>>)
    modifies events
    ensures events[..] == Reversed(old(events[..]))
  {
    hide Integral;
    ghost var rows := events[..];
    var n := events.Length;
    var i, j := 0, n - 1;
    while i < j
      invariant 0 <= i <= n && j == n - 1 - i && i <= j + 1
      invariant forall k :: 0 <= k < i ==> events[k] == rows[n - 1 - k] && events[n - 1 - k] == rows[k]
      invariant forall k :: i <= k <= j ==> events[k] == rows[k]
    {
      events[i], events[j] := events[j], events[i];
      i, j := i + 1, j - 1;
    }
    assert events[..] == Reversed(rows);
  }

  /** `VerifyOrganization`: `stored` is what the repository returns, newest first, or `None` if
      reading fails. The rows are reversed in place before they are verified. */
  method VerifyOrganization<M>(env: Encoders<M>, enabled: bool, stored: Option<seq<Option<Event<M>>>>)
      returns (verified: nat, failed: nat, err: bool)
    ensures !enabled ==> verified == failed == 0 && !err
    ensures enabled && stored.None? ==> verified == failed == 0 && err
    ensures enabled && stored.Some? ==>
              && failed == Failures(env, Reversed(stored.value), None)
              && err == (failed > 0)
              && verified == if err then 0 else |stored.value|
  {
    hide *;
    if !enabled {
      return 0, 0, false;
    }
    if stored.None? {
      return 0, 0, true;
    }
    var n := |stored.value|;
    var events := new Option<Event<M>>[n](i requires 0 <= i < n => stored.value[i]);
    assert events[..] == stored.value;
    ReverseRows(events);
    verified, failed, err := VerifyChain(env, events[..]);
    if err {
      verified := 0;
    }
  }

  /** A chain stored newest first is verified in full. */
  lemma NewestFirstVerifies<M>(env: Encoders<M>, log: seq<Event<M>>)
    requires Chain(env, log)
    ensures Failures(env, Reversed(Reversed(Present(log))), None) == 0
  {
    hide Failures, Integral;
    ChainIffVerified(env, log);
    assert Reversed(Reversed(Present(log))) == Present(log);
  }

  function TotalRows<M>(all: seq<Option<seq<Option<Event<M>>>>>): nat {
    if all == [] then 0 else (if all[0].Some? then |all[0].value| else 0) + TotalRows(all[1..])
  }

  /** The rows of several organizations are counted together, those of each by their number. */
  lemma {:induction false} RowsAddUp<M>(a: seq<Option<seq<Option<Event<M>>>>>, b: seq<Option<seq<Option<Event<M>>>>>)
    ensures TotalRows(a + b) == TotalRows(a) + TotalRows(b)
    ensures |a| == 1 && a[0].Some? ==> TotalRows(a) == |a[0].value|
    ensures a == [] ==> TotalRows(a) == 0
  {
    if a == [] {
      assert a + b == b;
    } else {
      RowsAddUp(a[1..], b);
      assert (a + b)[1..] == a[1..] + b;
    }
  }

  predicate Sane<M>(env: Encoders<M>, stored: Option<seq<Option<Event<M>>>>) {
    stored.Some? && Failures(env, Reversed(stored.value), None) == 0
  }

  /** Every organization could be listed and read, and its log verifies. */
  predicate AllSane<M>(env: Encoders<M>, all: Option<seq<Option<seq<Option<Event<M>>>>>>) {
    all.Some? && forall i :: 0 <= i < |all.value| ==> Sane(env, all.value[i])
  }

  /** `VerifyAllOrganizations`: `all` is `None` if the organizations cannot be listed. Contrary to
      its documentation it returns an error, and with it zero counts, exactly when listing fails or
      some organization fails; the failure count is never positive. */
  method VerifyAllOrganizations<M>(env: Encoders<M>, enabled: bool,
                                   all: Option<seq<Option<seq<Option<Event<M>>>>>>)
      returns (totalVerified: nat, totalFailed: nat, orgsChecked: nat, err: bool)
    ensures totalFailed == 0
    ensures err <==> enabled && !AllSane(env, all)
    ensures err || !enabled ==> totalVerified == orgsChecked == 0
    ensures enabled && !err ==> totalVerified == TotalRows(all.value) && orgsChecked == |all.value|
  {
    hide Failures;
    if !enabled {
      return 0, 0, 0, false;
    }
    if all.None? {
      return 0, 0, 0, true;
    }
    var orgs := all.value;
    totalVerified, totalFailed, orgsChecked := 0, 0, 0;
    assert orgs[0..] == orgs;
    for i := 0 to |orgs|
      invariant orgsChecked == i && totalFailed == 0
      invariant forall k :: 0 <= k < i ==> Sane(env, orgs[k])
      invariant totalVerified + TotalRows(orgs[i..]) == TotalRows(orgs)
    {
      assert orgs[i..][0] == orgs[i] && orgs[i..][1..] == orgs[i + 1..];
      var v, f, bad := VerifyOrganization(env, enabled, orgs[i]);
      if bad {
        return 0, 0, 0, true;
      }
      totalVerified, totalFailed, orgsChecked := totalVerified + v, totalFailed + f, orgsChecked + 1;
    }
    err := false;
  }

  /** Inputs for which an error is returned: no list of organizations, and, next to any number of
      sound organizations, one whose log holds a single event with another hash than its own. */
  lemma VerifyingAllCanFail<M>(env: Encoders<M>, m: M, sound: seq<Option<seq<Option<Event<M>>>>>)
      returns (e: Event<M>)
    ensures !AllSane<M>(env, None) && !AllSane(env, Some(sound + [Some([Some(e)])]))
  {
    e := Event("1", "org", None, "create", "case", None, "success", None, m, 0, None, "");
    e := e.(hash := match HashOf(env, e) case Ok(h) => h + "0" case Err(_) => "");
    HashIgnoresHash(env, e, "");
    var bad: seq<Option<Event<M>>> := [Some(e)];
    assert !Integral(env, e);
    assert Reversed(bad) == bad && !Sane(env, Some(bad));
    var all := sound + [Some(bad)];
    assert all[|sound|] == Some(bad);
  }
}
