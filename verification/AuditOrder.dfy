/** The recorder of audit events, which finds the predecessor of an event by time, and the verifier,
    which puts events in order by time: when they agree. */
module AuditOrder {
  import opened Common
  import opened AuditEncoding
  import opened AuditChain

  /** The place of a time and an identifier in the order of the database: by time, then by
      identifier. The results hold for every order. */
  type Order = (int, string) -> int

  function At<M>(order: Order, e: Event<M>): int {
    order(e.timestamp, e.id)
  }

  // ----- the recorder -----

  /** The event that the database lists first. */
  function Latest<M>(order: Order, log: seq<Event<M>>): (m: nat)
    requires log != []
    ensures m < |log| && forall i :: 0 <= i < |log| ==> At(order, log[i]) <= At(order, log[m])
  {
    var n := |log| - 1;
    if n == 0 then 0
    else
      var m := Latest(order, log[..n]);
      assert forall i :: 0 <= i < n ==> log[i] == log[..n][i];
      if At(order, log[n]) > At(order, log[m]) then n else m
  }

  function LastHash<M>(order: Order, log: seq<Event<M>>): Option<string> {
    if log == [] then None else Some(log[Latest(order, log)].hash)
  }

  /** The event at position `j` was recorded as the recorder does it. */
  predicate Recorded<M>(env: Encoders<M>, order: Order, log: seq<Event<M>>, j: nat)
    requires j < |log|
  {
    Integral(env, log[j]) && log[j].previousHash == LastHash(order, log[..j])
  }

  ghost predicate Honest<M>(env: Encoders<M>, order: Order, log: seq<Event<M>>) {
    forall j :: 0 <= j < |log| ==> Recorded(env, order, log, j)
  }

  class AuditLog<M> {
    const env: Encoders<M>
    const order: Order
    var rows: seq<Event<M>>        // in the order in which they were recorded

    constructor (env: Encoders<M>, order: Order)
      ensures this.env == env && this.order == order && rows == []
    {
      this.env, this.order, this.rows := env, order, [];
    }

    /** `writeEvent`, under the lock of the organization: the event's time was read before. */
    method WriteEvent(event: Event<M>) returns (r: Result<Event<M>, Error>)
      modifies this
      ensures r.Err? <==> env.json(event.metadata).None?
      ensures r.Err? ==> rows == old(rows)
      ensures r.Ok? ==>
                && rows == old(rows) + [r.value] && Integral(env, r.value)
                && r.value == event.(previousHash := LastHash(order, old(rows)), hash := r.value.hash)
      ensures Honest(env, order, old(rows)) ==> Honest(env, order, rows)
    {
      hide Integral, HashOf, Encoding;
      var ev := event.(previousHash := LastHash(order, rows));
      var hash := ComputeHash(env, ev);
      HashNeedsMetadata(env, ev);
      if hash.Err? {
        return Err(hash.error);
      }
      HashIgnoresHash(env, ev, hash.value);
      ev := ev.(hash := hash.value);
      assert Integral(env, ev) by { IntegralMeans(env, ev); }
      ghost var before := rows;
      rows := rows + [ev];
      assert forall j :: 0 <= j <= |before| ==> rows[..j] == before[..j];
      assert before[..|before|] == before;
      if Honest(env, order, before) {
        forall j | 0 <= j < |rows| ensures Recorded(env, order, rows, j) {
          assert j < |before| ==> Recorded(env, order, before, j);
        }
      }
      return Ok(ev);
    }
  }

  lemma HashNeedsMetadata<M>(env: Encoders<M>, e: Event<M>)
    ensures HashOf(env, e).Err? <==> env.json(e.metadata).None?
  {
  }

  lemma IntegralMeans<M>(env: Encoders<M>, e: Event<M>)
    requires HashOf(env, e) == Ok(e.hash)
    ensures Integral(env, e)
  {
  }

  // ----- the listing -----

  ghost predicate DistinctPlaces<M>(order: Order, log: seq<Event<M>>) {
    forall i, j :: 0 <= i < |log| && 0 <= j < |log| && i != j ==> At(order, log[i]) != At(order, log[j])
  }

  ghost predicate DistinctHashes<M>(log: seq<Event<M>>) {
    forall i, j :: 0 <= i < |log| && 0 <= j < |log| && log[i].hash == log[j].hash ==> i == j
  }

  /** `FindByOrganization`: the same events, the latest first. */
  ghost predicate Lists<M>(order: Order, log: seq<Event<M>>, rows: seq<Event<M>>) {
    && (forall i, j :: 0 <= i < j < |rows| ==> At(order, rows[i]) > At(order, rows[j]))
    && (forall p :: 0 <= p < |rows| ==> rows[p] in log)
    && (forall j :: 0 <= j < |log| ==> log[j] in rows)
  }

  /** In the order in which they are verified. */
  ghost predicate Rises<M>(order: Order, log: seq<Event<M>>, sorted: seq<Event<M>>) {
    && (forall i, j :: 0 <= i < j < |sorted| ==> At(order, sorted[i]) < At(order, sorted[j]))
    && (forall p :: 0 <= p < |sorted| ==> sorted[p] in log)
    && (forall j :: 0 <= j < |log| ==> log[j] in sorted)
  }

  predicate AboveEarlier<M>(order: Order, log: seq<Event<M>>, j: nat)
    requires j < |log|
  {
    forall i :: 0 <= i < j ==> At(order, log[i]) < At(order, log[j])
  }

  predicate BelowOthers<M>(order: Order, log: seq<Event<M>>, j: nat)
    requires j < |log|
  {
    forall i :: 0 <= i < |log| && i != j ==> At(order, log[j]) < At(order, log[i])
  }

  /** The event comes after all that were recorded before it, or before all others. */
  predicate InPlace<M>(order: Order, log: seq<Event<M>>, j: nat)
    requires j < |log|
  {
    AboveEarlier(order, log, j) || BelowOthers(order, log, j)
  }

  lemma LatestBefore<M>(env: Encoders<M>, order: Order, log: seq<Event<M>>, j: nat) returns (m: nat)
    requires Honest(env, order, log) && 0 < j < |log|
    ensures m < j && log[j].previousHash == Some(log[m].hash)
    ensures forall i :: 0 <= i < j ==> At(order, log[i]) <= At(order, log[m])
  {
    hide Integral, Latest, At;
    assert Recorded(env, order, log, j);
    m := Latest(order, log[..j]);
    assert forall i :: 0 <= i < j ==> log[..j][i] == log[i];
  }

  lemma FirstHasNone<M>(env: Encoders<M>, order: Order, log: seq<Event<M>>)
    requires Honest(env, order, log) && log != []
    ensures log[0].previousHash.None?
  {
    assert Recorded(env, order, log, 0);
  }

  /** Every event but the first recorded one fits behind its predecessor in the listing exactly when
      that is the event the recorder found. */
  lemma FitsWhenInPlace<M>(env: Encoders<M>, order: Order, log: seq<Event<M>>, sorted: seq<Event<M>>, p: nat)
    requires Honest(env, order, log) && DistinctPlaces(order, log) && Rises(order, log, sorted)
    requires forall j :: 0 < j < |log| ==> InPlace(order, log, j)
    requires 0 < p < |sorted| && sorted[p].previousHash.Some?
    ensures sorted[p].previousHash.value == sorted[p - 1].hash
  {
    hide At, Integral;
    var j :| 0 <= j < |log| && log[j] == sorted[p];
    var k :| 0 <= k < |log| && log[k] == sorted[p - 1];
    FirstHasNone(env, order, log);
    var m := LatestBefore(env, order, log, j);
    assert At(order, log[k]) < At(order, log[j]);
    assert InPlace(order, log, j);
    var q :| 0 <= q < |sorted| && sorted[q] == log[m];
    assert At(order, log[m]) < At(order, log[j]);
    NothingBetween(order, log, j, k, m);
    PositionsFollow(order, log, sorted, p - 1, q);
    PositionsFollow(order, log, sorted, p, q);
  }

  lemma PositionsFollow<M>(order: Order, log: seq<Event<M>>, sorted: seq<Event<M>>, p: nat, q: nat)
    requires Rises(order, log, sorted) && p < |sorted| && q < |sorted|
    ensures At(order, sorted[p]) <= At(order, sorted[q]) <==> p <= q
  {
    hide At;
  }

  lemma NothingBetween<M>(order: Order, log: seq<Event<M>>, j: nat, k: nat, m: nat)
    requires m < j < |log| && k < |log| && DistinctPlaces(order, log)
    requires forall i :: 0 < i < |log| ==> InPlace(order, log, i)
    requires forall i :: 0 <= i < j ==> At(order, log[i]) <= At(order, log[m])
    requires At(order, log[k]) < At(order, log[j])
    ensures At(order, log[k]) <= At(order, log[m])
  {
    hide At;
    if k > j {
      assert InPlace(order, log, k);
    }
  }

  lemma InPlaceWhenFits<M>(env: Encoders<M>, order: Order, log: seq<Event<M>>, sorted: seq<Event<M>>, j: nat)
    requires Honest(env, order, log) && DistinctPlaces(order, log) && DistinctHashes(log) && Rises(order, log, sorted)
    requires forall p :: 0 < p < |sorted| && sorted[p].previousHash.Some? ==>
               sorted[p].previousHash.value == sorted[p - 1].hash
    requires 0 < j < |log|
    ensures InPlace(order, log, j)
  {
    hide At, Integral;
    var m := LatestBefore(env, order, log, j);
    var p :| 0 <= p < |sorted| && sorted[p] == log[j];
    if p > 0 {
      var k :| 0 <= k < |log| && log[k] == sorted[p - 1];
      assert sorted[p].previousHash.value == sorted[p - 1].hash;
      assert k == m && At(order, log[m]) < At(order, log[j]);
    } else {
      forall i | 0 <= i < |log| && i != j ensures At(order, log[j]) < At(order, log[i]) {
        var q :| 0 <= q < |sorted| && sorted[q] == log[i];
        assert At(order, log[i]) != At(order, log[j]);
      }
    }
  }

  // ----- verification -----

  lemma ListedReversed<M>(order: Order, log: seq<Event<M>>, rows: seq<Event<M>>)
    requires Lists(order, log, rows)
    ensures Rises(order, log, Reversed(rows)) && Reversed(Present(rows)) == Present(Reversed(rows))
  {
    hide At;
    var sorted := Reversed(rows);
    forall j | 0 <= j < |log| ensures log[j] in sorted {
      var p :| 0 <= p < |rows| && rows[p] == log[j];
      assert sorted[|rows| - 1 - p] == log[j];
    }
  }

  lemma AllIntegral<M>(env: Encoders<M>, order: Order, log: seq<Event<M>>, sorted: seq<Event<M>>)
    requires Honest(env, order, log) && Rises(order, log, sorted)
    ensures Intact(env, Present(sorted)) <==>
            forall p :: 0 < p < |sorted| && sorted[p].previousHash.Some? ==>
              sorted[p].previousHash.value == sorted[p - 1].hash
  {
    hide At, Integral, Latest;
    var all := Present(sorted);
    forall p | 0 <= p < |sorted| ensures all[p] == Some(sorted[p]) && Integral(env, sorted[p]) {
      var j :| 0 <= j < |log| && log[j] == sorted[p];
      assert Recorded(env, order, log, j);
    }
    if Intact(env, all) {
      forall p | 0 < p < |sorted| && sorted[p].previousHash.Some?
        ensures sorted[p].previousHash.value == sorted[p - 1].hash
      {
        assert LinkFits(all, p);
      }
    }
  }

  /** An honestly recorded log, listed latest first, verifies in full if every event came, in the
      order of time and identifier, after all that were recorded before it or before all others; and
      only then, if no two events share a hash. */
  lemma HonestLogVerifiesIff<M>(env: Encoders<M>, order: Order, log: seq<Event<M>>, rows: seq<Event<M>>)
    requires Honest(env, order, log) && DistinctPlaces(order, log) && Lists(order, log, rows)
    ensures (forall j :: 0 < j < |log| ==> InPlace(order, log, j)) ==>
              Failures(env, Reversed(Present(rows)), None) == 0
    ensures DistinctHashes(log) && Failures(env, Reversed(Present(rows)), None) == 0 ==>
              forall j :: 0 < j < |log| ==> InPlace(order, log, j)
  {
    hide Failures, Intact, InPlace, At, Honest, DistinctPlaces, DistinctHashes, Rises, Lists;
    var sorted := Reversed(rows);
    ListedReversed(order, log, rows);
    NoFailureIffIntact(env, Present(sorted));
    AllIntegral(env, order, log, sorted);
    if Intact(env, Present(sorted)) && DistinctHashes(log) {
      forall j | 0 < j < |log| ensures InPlace(order, log, j) {
        InPlaceWhenFits(env, order, log, sorted, j);
      }
    }
    if forall j :: 0 < j < |log| ==> InPlace(order, log, j) {
      forall p | 0 < p < |sorted| && sorted[p].previousHash.Some?
        ensures sorted[p].previousHash.value == sorted[p - 1].hash
      {
        FitsWhenInPlace(env, order, log, sorted, p);
      }
    }
  }

  /** If times rise as events are recorded, the log is a chain and verifies in full. */
  lemma RisingLogIsChain<M>(env: Encoders<M>, order: Order, log: seq<Event<M>>)
    requires Honest(env, order, log) && log != []
    requires forall j :: 0 <= j < |log| ==> AboveEarlier(order, log, j)
    ensures Chain(env, log)
  {
    hide Integral, At;
    FirstHasNone(env, order, log);
    forall i | 0 < i < |log| ensures Linked(log, i) {
      var m := LatestBefore(env, order, log, i);
      assert AboveEarlier(order, log, i - 1);
      assert m == i - 1;
    }
    forall i | 0 <= i < |log| ensures Integral(env, log[i]) { assert Recorded(env, order, log, i); }
  }

  /** Events of different content have different hashes. */
  lemma DifferentContentsDifferentHashes<M(!new)>(env: Encoders<M>, order: Order, log: seq<Event<M>>)
    requires Sound(env) && Honest(env, order, log)
    requires forall i :: 0 <= i < |log| ==> WellTyped(log[i]) && Clean(log[i])
    requires forall i, j :: 0 <= i < |log| && 0 <= j < |log| && SameContent(log[i], log[j]) ==> i == j
    ensures DistinctHashes(log)
  {
    hide Encoding, Sound, WellTyped, Clean, SameContent, LastHash;
    forall i, j | 0 <= i < |log| && 0 <= j < |log| && log[i].hash == log[j].hash ensures i == j {
      assert Recorded(env, order, log, i) && Recorded(env, order, log, j);
      HashInjective(env, Encoding(env, log[i]), Encoding(env, log[j]));
      EncodingDeterminesContent(env, log[i], log[j]);
    }
  }

  // ----- inputs -----

  const BY_TIME: Order := (time, id) => time

  function Bare<M>(m: M, id: string, action: string, time: int, prev: Option<string>): Event<M> {
    Event(id, "org", None, action, "case", None, "success", None, m, time, prev, "")
  }

  function Sealed<M>(env: Encoders<M>, e: Event<M>): Event<M>
    requires env.json(e.metadata).Some?
  {
    e.(hash := env.hash(Encoding(env, e)))
  }

  lemma SealedIsIntegral<M>(env: Encoders<M>, e: Event<M>)
    requires env.json(e.metadata).Some?
    ensures Integral(env, Sealed(env, e))
  {
    HashIgnoresHash(env, e, env.hash(Encoding(env, e)));
  }

  lemma BareIsClean<M(!new)>(env: Encoders<M>, m: M, id: string, action: string, time: int, prev: Option<string>)
    requires Sound(env) && action in {"a", "b", "c"} && NoBar(OrEmpty(prev))
    ensures Clean(Bare(m, id, action, time, prev)) && WellTyped(Bare(m, id, action, time, prev))
  {
  }

  lemma SealIsClean<M(!new)>(env: Encoders<M>, e: Event<M>)
    requires Sound(env) && env.json(e.metadata).Some?
    ensures NoBar(OrEmpty(Some(Sealed(env, e).hash))) && NoBar(OrEmpty(None))
  {
    hide Encoding;
  }

  lemma DifferentActionsDifferentHashes<M(!new)>(env: Encoders<M>, a: Event<M>, b: Event<M>)
    requires Sound(env) && env.json(a.metadata).Some? && env.json(b.metadata).Some?
    requires WellTyped(a) && WellTyped(b) && Clean(a) && Clean(b) && a.action != b.action
    ensures Sealed(env, a).hash != Sealed(env, b).hash
  {
    hide Encoding, Sound, WellTyped, Clean;
    EncodingDeterminesContent(env, a, b);
    if env.hash(Encoding(env, a)) == env.hash(Encoding(env, b)) {
      HashInjective(env, Encoding(env, a), Encoding(env, b));
    }
  }

  /** Three events, the last of which read its clock before the second did but waited longer for the
      lock: recorded honestly, the log does not verify. */
  lemma HonestLogCanFail<M(!new)>(env: Encoders<M>, m: M) returns (log: seq<Event<M>>, rows: seq<Event<M>>)
    requires Sound(env) && env.json(m).Some?
    ensures Honest(env, BY_TIME, log) && Lists(BY_TIME, log, rows)
    ensures Failures(env, Reversed(Present(rows)), None) > 0
  {
    hide Encoding, Failures, Integral, Clean, WellTyped, Sound, NoBar;
    var a := Bare(m, "1", "a", 1000, None);
    var b := Bare(m, "2", "b", 3000, Some(Sealed(env, a).hash));
    var c := Bare(m, "3", "c", 2000, Some(Sealed(env, b).hash));
    var x, y, z := Sealed(env, a), Sealed(env, b), Sealed(env, c);
    log, rows := [x, y, z], [y, z, x];
    SealedIsIntegral(env, a);
    SealedIsIntegral(env, b);
    SealedIsIntegral(env, c);
    assert log[..0] == [] && log[..1] == [x] && log[..2] == [x, y];
    assert Latest(BY_TIME, [x]) == 0;
    assert Latest(BY_TIME, [x, y]) == 1;
    SealIsClean(env, a);
    SealIsClean(env, b);
    BareIsClean(env, m, "1", "a", 1000, None);
    BareIsClean(env, m, "2", "b", 3000, Some(x.hash));
    BareIsClean(env, m, "3", "c", 2000, Some(y.hash));
    DifferentActionsDifferentHashes(env, a, b);
    DifferentActionsDifferentHashes(env, a, c);
    DifferentActionsDifferentHashes(env, b, c);
    assert !InPlace(BY_TIME, log, 2) by {
      assert At(BY_TIME, log[0]) == 1000 && At(BY_TIME, log[1]) == 3000 && At(BY_TIME, log[2]) == 2000;
    }
    HonestLogVerifiesIff(env, BY_TIME, log, rows);
  }

  /** Rising times are more than is needed: an event that comes before all others is checked against
      no predecessor, and the first recorded one names none. */
  lemma BackdatedEventCanPass<M(!new)>(env: Encoders<M>, m: M) returns (log: seq<Event<M>>, rows: seq<Event<M>>)
    requires Sound(env) && env.json(m).Some?
    ensures Honest(env, BY_TIME, log) && Lists(BY_TIME, log, rows)
    ensures |log| == 2 && !AboveEarlier(BY_TIME, log, 1)
    ensures Failures(env, Reversed(Present(rows)), None) == 0
  {
    hide Encoding, Failures, Integral, Sound;
    var a := Bare(m, "1", "a", 3000, None);
    var b := Bare(m, "2", "b", 1000, Some(Sealed(env, a).hash));
    var x, y := Sealed(env, a), Sealed(env, b);
    log, rows := [x, y], [x, y];
    SealedIsIntegral(env, a);
    SealedIsIntegral(env, b);
    assert log[..0] == [] && log[..1] == [x];
    assert Latest(BY_TIME, [x]) == 0;
    assert At(BY_TIME, log[0]) == 3000 && At(BY_TIME, log[1]) == 1000;
    assert BelowOthers(BY_TIME, log, 1);
    HonestLogVerifiesIff(env, BY_TIME, log, rows);
  }

  /** Within one microsecond the database orders by identifier. */
  const BY_IDENTIFIER: Order := (time, id) => if id == "" then 0 else id[0] as int

  /** Four events, the second and third of which are linked to the first and share a hash, the fourth
      to the third; in the order of the database they stand second, fourth, first, third. */
  ghost predicate Disorder<M>(env: Encoders<M>, order: Order, x: Event<M>, y: Event<M>, z: Event<M>, w: Event<M>) {
    && Integral(env, x) && Integral(env, y) && Integral(env, z) && Integral(env, w)
    && At(order, y) < At(order, w) < At(order, x) < At(order, z)
    && x.previousHash.None? && y.previousHash == z.previousHash == Some(x.hash)
    && y.hash == z.hash && w.previousHash == Some(z.hash)
  }

  lemma DisorderIsHonest<M>(env: Encoders<M>, order: Order, x: Event<M>, y: Event<M>, z: Event<M>, w: Event<M>)
    requires Disorder(env, order, x, y, z, w)
    ensures Honest(env, order, [x, y, z, w])
  {
    hide Integral, At;
    var log := [x, y, z, w];
    assert log[..0] == [] && log[..1] == [x] && log[..2] == [x, y] && log[..3] == [x, y, z];
    assert [x, y, z][..2] == [x, y] && [x, y][..1] == [x];
    assert Latest(order, [x]) == 0;
    assert Latest(order, [x, y]) == 0;
    assert Latest(order, [x, y, z]) == 2;
  }

  lemma DisorderIsListed<M>(env: Encoders<M>, order: Order, x: Event<M>, y: Event<M>, z: Event<M>, w: Event<M>)
    requires Disorder(env, order, x, y, z, w)
    ensures DistinctPlaces(order, [x, y, z, w]) && Lists(order, [x, y, z, w], [z, x, w, y])
    ensures !InPlace(order, [x, y, z, w], 3)
  {
    hide Integral, At;
    var log := [x, y, z, w];
    assert log[0] == x && log[1] == y && log[2] == z && log[3] == w;
  }

  lemma DisorderVerifies<M>(env: Encoders<M>, order: Order, x: Event<M>, y: Event<M>, z: Event<M>, w: Event<M>)
    requires Disorder(env, order, x, y, z, w)
    ensures Failures(env, Reversed(Present([z, x, w, y])), None) == 0
  {
    hide Integral, At, Failures;
    var all: seq<Option<Event<M>>> := [Some(y), Some(w), Some(x), Some(z)];
    assert Reversed(Present([z, x, w, y])) == all;
    assert LinkFits(all, 1) && LinkFits(all, 2) && LinkFits(all, 3);
    NoFailureIffIntact(env, all);
  }

  /** Different hashes are needed: two events of one content, recorded behind one predecessor within a
      microsecond, have one hash, and an event that follows the second passes behind the first. */
  lemma EqualHashesHideDisorder<M(!new)>(env: Encoders<M>, m: M)
      returns (log: seq<Event<M>>, rows: seq<Event<M>>)
    requires Sound(env) && env.json(m).Some?
    ensures Honest(env, BY_IDENTIFIER, log) && DistinctPlaces(BY_IDENTIFIER, log) && Lists(BY_IDENTIFIER, log, rows)
    ensures |log| == 4 && !InPlace(BY_IDENTIFIER, log, 3)
    ensures Failures(env, Reversed(Present(rows)), None) == 0
  {
    hide Encoding, Failures, Integral, Sound, Honest, DistinctPlaces, Lists, InPlace, At;
    var a := Bare(m, "5", "a", 1000, None);
    var x := Sealed(env, a);
    var b, c := Bare(m, "1", "b", 1000, Some(x.hash)), Bare(m, "7", "b", 1000, Some(x.hash));
    var y, z := Sealed(env, b), Sealed(env, c);
    var d := Bare(m, "3", "c", 1000, Some(z.hash));
    var w := Sealed(env, d);
    log, rows := [x, y, z, w], [z, x, w, y];
    SealedIsIntegral(env, a);
    SealedIsIntegral(env, b);
    SealedIsIntegral(env, c);
    SealedIsIntegral(env, d);
    IdentifierIsNotHashed(env, b, "7");
    Places(x, y, z, w);
    DisorderIsHonest(env, BY_IDENTIFIER, x, y, z, w);
    DisorderIsListed(env, BY_IDENTIFIER, x, y, z, w);
    DisorderVerifies(env, BY_IDENTIFIER, x, y, z, w);
  }

  lemma IdentifierIsNotHashed<M>(env: Encoders<M>, e: Event<M>, id: string)
    requires env.json(e.metadata).Some?
    ensures Encoding(env, e.(id := id)) == Encoding(env, e)
  {
  }

  lemma Places<M>(x: Event<M>, y: Event<M>, z: Event<M>, w: Event<M>)
    requires x.id == "5" && y.id == "1" && z.id == "7" && w.id == "3"
    ensures At(BY_IDENTIFIER, y) < At(BY_IDENTIFIER, w) < At(BY_IDENTIFIER, x) < At(BY_IDENTIFIER, z)
  {
    assert '1' as int < '3' as int < '5' as int < '7' as int;
  }
}
