/** The store behind idempotent requests, and the middleware that replays from it. */
module Idempotency {
  import opened Common
  import opened Text

  datatype Response = Response(status: int, body: string)

  datatype Record = Record(response: Response, createdAt: int)

  type Store = map<string, Record>

  predicate Expired(r: Record, ttl: int, now: int) {
    now - r.createdAt > ttl
  }

  function Unexpired(data: Store, ttl: int, now: int): Store {
    map key | key in data && !Expired(data[key], ttl, now) :: data[key]
  }

  /** What `Get` finds at time `now`. */
  function Lookup(data: Store, ttl: int, key: string, now: int): Option<Response> {
    if key !in data || Expired(data[key], ttl, now) then None else Some(data[key].response)
  }

  // ----- eviction -----

  /** `kept` holds the newest records of `all`, `capacity` of them, or all if there are fewer. */
  ghost predicate KeepsNewest(all: Store, kept: Store, capacity: nat) {
    && kept.Keys <= all.Keys && (forall key :: key in kept ==> kept[key] == all[key])
    && |kept| == (if |all| <= capacity then |all| else capacity)
    && (forall key, gone :: key in kept && gone in all && gone !in kept ==> all[gone].createdAt <= kept[key].createdAt)
  }

  class IdempotencyStore {
    var data: Store
    const ttl: int
    var maxEntries: int

    /** Keys are hexadecimal digests, never empty: the eviction loop takes the empty key for none. */
    ghost predicate Valid()
      reads this
    {
      "" !in data && maxEntries > 0
    }

    constructor (ttl: int)
      ensures Valid() && data == map[] && maxEntries == 100000 && this.ttl == ttl
    {
      data, maxEntries := map[], 100000;
      this.ttl := ttl;
    }

    method SetMaxEntries(max: int)
      requires Valid()
      modifies this`maxEntries
      ensures Valid() && maxEntries == if max > 0 then max else old(maxEntries)
    {
      if max > 0 {
        maxEntries := max;
      }
    }

    method Get(key: string, now: int) returns (rec: Option<Response>)
      ensures rec == Lookup(data, ttl, key, now)
    {
      if key !in data || now - data[key].createdAt > ttl {
        return None;
      }
      return Some(data[key].response);
    }

    method Set(key: string, rec: Record)
      requires Valid() && key != ""
      modifies this`data
      ensures Valid() && data == old(data)[key := rec]
    {
      data := data[key := rec];
    }

    /** `cleanup`: drops the expired records, then, one at a time, the oldest of those that are too
        many. The clock is read again for every one of them; `clock` gives the readings. */
    method Cleanup(now: int, clock: nat -> int)
      requires Valid()
      modifies this`data
      ensures Valid() && KeepsNewest(Unexpired(old(data), ttl, now), data, maxEntries)
    {
      DropExpired(now);
      ghost var all := data;
      if |data| > maxEntries {
        var evictCount := |data| - maxEntries;
        for n := 0 to evictCount
          invariant KeepsNewest(all, data, |all| - n) && "" !in data
        {
          var oldestKey := Oldest(clock(n));
          EvictionKeepsNewest(all, data, |all| - n, oldestKey);
          data := data - {oldestKey};
        }
      }
    }

    /** The first loop of `cleanup`. */
    method DropExpired(now: int)
      requires Valid()
      modifies this`data
      ensures Valid() && data == Unexpired(old(data), ttl, now)
    {
      var todo := data.Keys;
      while todo != {}
        invariant todo <= data.Keys <= old(data).Keys
        invariant forall key :: key in data ==> data[key] == old(data)[key]
        invariant forall key :: key in old(data) ==>
                    (key in data <==> key in todo || !Expired(old(data)[key], ttl, now))
        decreases todo
      {
        var key :| key in todo;
        todo := todo - {key};
        if Expired(data[key], ttl, now) {
          data := data - {key};
        }
      }
    }

    /** The inner loop of `cleanup`: an oldest record, found in one pass in any order. */
    method Oldest(reading: int) returns (oldestKey: string)
      requires Valid() && data != map[]
      ensures oldestKey in data && forall key :: key in data ==> data[oldestKey].createdAt <= data[key].createdAt
    {
      oldestKey := "";
      var oldestTime := reading;
      var todo := data.Keys;
      while todo != {}
        invariant todo <= data.Keys
        invariant oldestKey == "" ==> todo == data.Keys
        invariant oldestKey != "" ==>
                    && oldestKey in data && oldestTime == data[oldestKey].createdAt
                    && forall key :: key in data && key !in todo ==> oldestTime <= data[key].createdAt
        decreases todo
      {
        var k :| k in todo;
        todo := todo - {k};
        if data[k].createdAt < oldestTime || oldestKey == "" {
          oldestKey, oldestTime := k, data[k].createdAt;
        }
      }
    }
  }

  lemma EvictionKeepsNewest(all: Store, kept: Store, capacity: nat, oldest: string)
    requires 0 < capacity <= |all| && KeepsNewest(all, kept, capacity)
    requires oldest in kept && forall key :: key in kept ==> kept[oldest].createdAt <= kept[key].createdAt
    ensures KeepsNewest(all, kept - {oldest}, capacity - 1)
  {
    var rest := kept - {oldest};
    assert rest.Keys == kept.Keys - {oldest} && |rest.Keys| == |rest| && |kept.Keys| == |kept|;
  }

  /** If no two records have one age, what is kept is determined: the newest ones. */
  lemma NewestAreUnique(all: Store, a: Store, b: Store, capacity: nat)
    requires KeepsNewest(all, a, capacity) && KeepsNewest(all, b, capacity)
    requires forall k, l :: k in all && l in all && k != l ==> all[k].createdAt != all[l].createdAt
    ensures a == b
  {
    assert |a.Keys| == |a| && |b.Keys| == |b|;
    NewestAreNested(all, a, b, capacity);
    ProperSubset(a.Keys, b.Keys);
    ProperSubset(b.Keys, a.Keys);
  }

  lemma NewestAreNested(all: Store, a: Store, b: Store, capacity: nat)
    requires KeepsNewest(all, a, capacity) && KeepsNewest(all, b, capacity)
    requires forall k, l :: k in all && l in all && k != l ==> all[k].createdAt != all[l].createdAt
    ensures a.Keys <= b.Keys || b.Keys <= a.Keys
  {
    forall k, l | k in a.Keys - b.Keys && l in b.Keys - a.Keys
      ensures all[l].createdAt <= all[k].createdAt <= all[l].createdAt
    {
      assert a[k] == all[k] && b[l] == all[l];
    }
    assert a.Keys - b.Keys == {} || b.Keys - a.Keys == {};
  }

  lemma ProperSubset(s: set<string>, t: set<string>)
    ensures s <= t && s != t ==> |s| < |t|
  {
    if s <= t { assert |t| == |s| + |t - s|; }
  }

  /** A record that is kept is found as before, and if there is room for all that have not
      expired, no later lookup can tell that a cleanup took place. */
  lemma CleanupInvisibleToGet(data: Store, kept: Store, ttl: int, capacity: nat, key: string, now: int, later: int)
    requires KeepsNewest(Unexpired(data, ttl, now), kept, capacity) && now <= later
    requires |Unexpired(data, ttl, now)| <= capacity || key in kept
    ensures Lookup(kept, ttl, key, later) == Lookup(data, ttl, key, later)
  {
    var all := Unexpired(data, ttl, now);
    if |all| <= capacity {
      assert |kept.Keys| == |kept| && |all.Keys| == |all|;
      ProperSubset(kept.Keys, all.Keys);
    }
  }

  // ----- the middleware -----

  /** What a handler does with its response writer. */
  datatype Output = Status(code: int) | Body(text: string)

  const OK_STATUS: int := 200

  function BodyOf(outputs: seq<Output>): string {
    if outputs == [] then ""
    else (if outputs[0].Body? then outputs[0].text else "") + BodyOf(outputs[1..])
  }

  /** The recording writer keeps the last status. */
  function LastStatus(outputs: seq<Output>): int {
    if outputs == [] then OK_STATUS
    else
      var o := outputs[|outputs| - 1];
      if o.Status? then o.code else LastStatus(outputs[..|outputs| - 1])
  }

  function Recorded(outputs: seq<Output>): Response {
    Response(LastStatus(outputs), BodyOf(outputs))
  }

  /** The connection keeps the first status; a body that comes first stands for the default. */
  function Sent(outputs: seq<Output>): Response {
    Response(if outputs != [] && outputs[0].Status? then outputs[0].code else OK_STATUS, BodyOf(outputs))
  }

  predicate LastStatusAt(outputs: seq<Output>, i: nat)
    requires i < |outputs|
  {
    outputs[i].Status? && forall k :: i < k < |outputs| ==> outputs[k].Body?
  }

  lemma {:induction false} LastStatusMeans(outputs: seq<Output>)
    ensures forall i :: 0 <= i < |outputs| && LastStatusAt(outputs, i) ==> LastStatus(outputs) == outputs[i].code
    ensures (forall i :: 0 <= i < |outputs| ==> outputs[i].Body?) ==> LastStatus(outputs) == OK_STATUS
    ensures (exists i :: 0 <= i < |outputs| && LastStatusAt(outputs, i))
            || forall i :: 0 <= i < |outputs| ==> outputs[i].Body?
  {
    if outputs != [] {
      var n := |outputs| - 1;
      LastStatusMeans(outputs[..n]);
      if outputs[n].Status? {
        assert LastStatusAt(outputs, n);
      } else {
        forall i | 0 <= i < n ensures LastStatusAt(outputs, i) == LastStatusAt(outputs[..n], i) {
        }
        if !(forall i :: 0 <= i < n ==> outputs[..n][i].Body?) {
          var i :| 0 <= i < n && LastStatusAt(outputs[..n], i);
          assert LastStatusAt(outputs, i);
        }
      }
    }
  }

  /** What is recorded is what was sent exactly when the last status that the handler writes is the
      one that was sent. */
  lemma RecordedIsSentIff(outputs: seq<Output>)
    ensures Recorded(outputs) == Sent(outputs) <==>
            forall i :: 0 <= i < |outputs| && LastStatusAt(outputs, i) ==> outputs[i].code == Sent(outputs).status
  {
    hide LastStatus, BodyOf;
    LastStatusMeans(outputs);
  }

  /** The parts of a request that matter, the digest of its cache key, when it arrives, when its
      handler would finish, and what its handler would do. */
  datatype Request = Request(httpMethod: string, path: string, idempotencyKey: string, principal: string,
                             digest: string, now: int, done: int, outputs: seq<Output>)

  predicate Cached(r: Request) {
    (r.httpMethod == "POST" || r.httpMethod == "PUT") && r.idempotencyKey != ""
  }

  /** What happens to the store: a request, or a cleanup that found room for all that had not
      expired. */
  datatype Event = Serve(request: Request) | Cleanup(at: int)

  datatype Reply = Reply(response: Response, executed: bool)

  function ReplyTo(data: Store, ttl: int, r: Request): Reply {
    if !Cached(r) then Reply(Sent(r.outputs), true)
    else match Lookup(data, ttl, r.digest, r.now)
      case Some(response) => Reply(response, false)
      case None => Reply(Sent(r.outputs), true)
  }

  function After(data: Store, ttl: int, e: Event): Store {
    match e
    case Cleanup(at) => Unexpired(data, ttl, at)
    case Serve(r) =>
      if Cached(r) && ReplyTo(data, ttl, r).executed then data[r.digest := Record(Recorded(r.outputs), r.done)]
      else data
  }

  /** The text under which a request is cached, before it is hashed. */
  function KeyText(r: Request): string {
    Join([r.httpMethod, r.path, r.idempotencyKey, r.principal], ":")
  }

  /** `IdempotencyKey`: the wrapped handler, whose outputs pass through a recording writer. */
  method HandleRequest(store: IdempotencyStore, hash: string -> string, r: Request) returns (reply: Reply)
    requires store.Valid() && r.digest == hash(KeyText(r)) && r.digest != ""
    modifies store`data
    ensures store.Valid()
    ensures reply == ReplyTo(old(store.data), store.ttl, r)
    ensures store.data == After(old(store.data), store.ttl, Serve(r))
  {
    hide LastStatus, BodyOf, Join;
    if r.httpMethod != "POST" && r.httpMethod != "PUT" {
      return Reply(Sent(r.outputs), true);
    }
    if r.idempotencyKey == "" {
      return Reply(Sent(r.outputs), true);
    }
    KeyTextIs(r);
    var cacheKey := hash(r.httpMethod + ":" + r.path + ":" + r.idempotencyKey + ":" + r.principal);
    var rec := store.Get(cacheKey, r.now);
    if rec.Some? {
      return Reply(rec.value, false);
    }
    var recorded := RecordOutputs(r.outputs);
    store.Set(cacheKey, Record(recorded, r.done));
    return Reply(Sent(r.outputs), true);
  }

  lemma KeyTextIs(r: Request)
    ensures KeyText(r) == r.httpMethod + ":" + r.path + ":" + r.idempotencyKey + ":" + r.principal
  {
    hide Join;
    var a, b, c, d := r.httpMethod, r.path, r.idempotencyKey, r.principal;
    JoinTwo(c, [d]);
    JoinTwo(b, [c, d]);
    JoinTwo(a, [b, c, d]);
    JoinOne(d, ":");
    assert [c] + [d] == [c, d] && [b] + [c, d] == [b, c, d] && [a] + [b, c, d] == [a, b, c, d];
    assert b + ":" + (c + ":" + d) == b + ":" + c + ":" + d;
    assert a + ":" + (b + ":" + c + ":" + d) == a + ":" + b + ":" + c + ":" + d;
  }

  lemma JoinTwo(s: string, parts: seq<string>)
    requires parts != []
    ensures Join([s] + parts, ":") == s + ":" + Join(parts, ":")
  {
    assert ([s] + parts)[1..] == parts;
  }

  /** The recording writer: every status overwrites the last, every body is appended. */
  method RecordOutputs(outputs: seq<Output>) returns (r: Response)
    ensures r == Recorded(outputs)
  {
    hide LastStatus, BodyOf;
    var statusCode, buffer := OK_STATUS, "";
    NothingWritten(outputs);
    for i := 0 to |outputs|
      invariant statusCode == LastStatus(outputs[..i])
      invariant buffer + BodyOf(outputs[i..]) == BodyOf(outputs)
    {
      StatusStep(outputs, i);
      BodyStep(outputs, i, buffer);
      match outputs[i] {
        case Status(code) => statusCode := code;
        case Body(text) => buffer := buffer + text;
      }
    }
    assert outputs[..|outputs|] == outputs && outputs[|outputs|..] == [] && buffer + "" == buffer;
    return Response(statusCode, buffer);
  }

  lemma NothingWritten(outputs: seq<Output>)
    ensures LastStatus(outputs[..0]) == OK_STATUS && BodyOf([]) == "" && outputs[0..] == outputs
    ensures "" + BodyOf(outputs) == BodyOf(outputs)
  {
  }

  lemma StatusStep(outputs: seq<Output>, i: nat)
    requires i < |outputs|
    ensures LastStatus(outputs[..i + 1]) == if outputs[i].Status? then outputs[i].code else LastStatus(outputs[..i])
  {
    assert outputs[..i + 1][..i] == outputs[..i] && outputs[..i + 1][i] == outputs[i];
  }

  lemma BodyStep(outputs: seq<Output>, i: nat, buffer: string)
    requires i < |outputs|
    ensures buffer + BodyOf(outputs[i..]) ==
            (if outputs[i].Body? then buffer + outputs[i].text else buffer) + BodyOf(outputs[i + 1..])
  {
    hide BodyOf;
    var rest := BodyOf(outputs[i + 1..]);
    BodyCons(outputs[i], outputs[i + 1..]);
    assert outputs[i..] == [outputs[i]] + outputs[i + 1..];
    if outputs[i].Body? {
      assert buffer + (outputs[i].text + rest) == buffer + outputs[i].text + rest;
    }
  }

  lemma BodyCons(o: Output, outputs: seq<Output>)
    ensures BodyOf([o] + outputs) == (if o.Body? then o.text + BodyOf(outputs) else BodyOf(outputs))
  {
    assert ([o] + outputs)[1..] == outputs;
    assert "" + BodyOf(outputs) == BodyOf(outputs);
  }

  // ----- serial histories -----

  function StateAt(ttl: int, history: seq<Event>): Store {
    if history == [] then map[]
    else After(StateAt(ttl, history[..|history| - 1]), ttl, history[|history| - 1])
  }

  predicate Keyed(e: Event, key: string) {
    e.Serve? && Cached(e.request) && e.request.digest == key
  }

  /** Event `i` ran the handler for `key`. */
  predicate Executed(ttl: int, history: seq<Event>, i: nat, key: string)
    requires i < |history|
  {
    Keyed(history[i], key) && ReplyTo(StateAt(ttl, history[..i]), ttl, history[i].request).executed
  }

  function Start(e: Event): int {
    match e case Serve(r) => r.now case Cleanup(at) => at
  }

  function End(e: Event): int {
    match e case Serve(r) => r.done case Cleanup(at) => at
  }

  /** One event ends before the next begins, and the clock does not go back. */
  ghost predicate Serial(history: seq<Event>, now: int) {
    history != [] ==>
      var e := history[|history| - 1];
      Start(e) <= End(e) <= now && Serial(history[..|history| - 1], Start(e))
  }

  /** The latest event that ran the handler for `key`. */
  function Latest(ttl: int, history: seq<Event>, key: string): (r: Option<nat>)
    ensures r.Some? ==> r.value < |history|
  {
    if history == [] then None
    else if Executed(ttl, history, |history| - 1, key) then Some(|history| - 1)
    else Latest(ttl, history[..|history| - 1], key)
  }

  lemma ExecutedInPrefix(ttl: int, history: seq<Event>, n: nat, i: nat, key: string)
    requires i < n <= |history|
    ensures Executed(ttl, history[..n], i, key) == Executed(ttl, history, i, key)
  {
    assert history[..n][..i] == history[..i];
  }

  lemma {:induction false} LatestIsExecuted(ttl: int, history: seq<Event>, key: string, i: nat)
    requires i < |history| && Executed(ttl, history, i, key)
    ensures var r := Latest(ttl, history, key);
            r.Some? && i <= r.value && Executed(ttl, history, r.value, key)
  {
    hide Executed;
    var n := |history| - 1;
    if !Executed(ttl, history, n, key) {
      ExecutedInPrefix(ttl, history, n, i, key);
      LatestIsExecuted(ttl, history[..n], key, i);
      ExecutedInPrefix(ttl, history, n, Latest(ttl, history, key).value, key);
    }
  }

  /** The store holds the reply of the latest execution until that has expired. */
  ghost predicate HoldsLatest(ttl: int, history: seq<Event>, key: string, now: int) {
    var data := StateAt(ttl, history);
    match Latest(ttl, history, key)
    case None => key !in data
    case Some(i) =>
      && history[i].Serve?
      && (key in data ==> data[key] == Record(Recorded(history[i].request.outputs), history[i].request.done))
      && (key !in data ==> now - history[i].request.done > ttl)
  }

  lemma {:induction false} StoreHoldsLatest(ttl: int, history: seq<Event>, key: string, now: int)
    requires Serial(history, now)
    ensures HoldsLatest(ttl, history, key, now)
    decreases |history|
  {
    if history != [] {
      var n := |history| - 1;
      var e := history[n];
      StoreHoldsLatest(ttl, history[..n], key, Start(e));
      if Latest(ttl, history[..n], key).Some? {
        var i := Latest(ttl, history[..n], key).value;
        assert history[..n][i] == history[i];
      }
    }
  }

  lemma {:induction false} SerialOrder(history: seq<Event>, now: int, i: nat, j: nat)
    requires Serial(history, now) && i < j < |history|
    ensures Start(history[i]) <= End(history[i]) <= Start(history[j]) <= End(history[j]) <= now
    ensures Serial(history[..j], Start(history[j]))
    decreases |history|
  {
    var n := |history| - 1;
    if j < n {
      SerialOrder(history[..n], Start(history[n]), i, j);
      assert history[..n][..j] == history[..j];
    } else if i < n - 1 {
      SerialOrder(history[..n], Start(history[n]), i, n - 1);
    }
  }

  /** One execution per epoch: in a serial history, once the handler has run for a key, it does not
      run again for that key until the time to live has passed since, and every request for the
      key up to then is answered with the status and body that were recorded of that run. */
  lemma {:induction false} OneExecutionPerEpoch(ttl: int, history: seq<Event>, now: int, key: string, i: nat, j: nat)
    requires Serial(history, now) && i < j < |history|
    requires Executed(ttl, history, i, key) && Keyed(history[j], key)
    ensures var first, r := history[i].request, history[j].request;
            r.now - first.done <= ttl ==>
              ReplyTo(StateAt(ttl, history[..j]), ttl, r) == Reply(Recorded(first.outputs), false)
    ensures Executed(ttl, history, j, key) ==> history[j].request.now - history[i].request.done > ttl
    decreases j
  {
    hide StateAt, Serial, Latest;
    var before := history[..j];
    SerialOrder(history, now, i, j);
    ExecutedInPrefix(ttl, history, j, i, key);
    LatestIsExecuted(ttl, before, key, i);
    var k := Latest(ttl, before, key).value;
    assert before[k] == history[k];
    StoreHoldsLatest(ttl, before, key, Start(history[j]));
    if k > i {
      ExecutedInPrefix(ttl, history, j, k, key);
      OneExecutionPerEpoch(ttl, history, now, key, i, k);
      SerialOrder(history, now, i, k);
      SerialOrder(history, now, k, j);
    }
  }

  // ----- from digests to requests -----

  ghost predicate SoundHash(hash: string -> string) {
    forall x, y :: hash(x) == hash(y) ==> x == y
  }

  predicate Digested(hash: string -> string, e: Event) {
    e.Serve? ==> e.request.digest == hash(KeyText(e.request))
  }

  predicate SameRequest(a: Request, b: Request) {
    && a.httpMethod == b.httpMethod && a.path == b.path
    && a.idempotencyKey == b.idempotencyKey && a.principal == b.principal
  }

  /** No colon in the path and the key. Two requests of this kind can be told apart; against a
      request with colons that takes a colon-free principal as well. */
  predicate Plain(r: Request) {
    Without(r.path, ':') && Without(r.idempotencyKey, ':')
  }

  lemma CachedMethodIsPlain(r: Request)
    requires Cached(r)
    ensures Without(r.httpMethod, ':')
  {
  }

  /** Without colons, cached requests share a text exactly when they are the same request. */
  lemma KeyTextDeterminesRequest(a: Request, b: Request)
    requires Cached(a) && Cached(b) && Plain(a) && Plain(b)
    ensures KeyText(a) == KeyText(b) <==> SameRequest(a, b)
  {
    hide Join, Without;
    var p := [a.httpMethod, a.path, a.idempotencyKey, a.principal];
    var q := [b.httpMethod, b.path, b.idempotencyKey, b.principal];
    if KeyText(a) == KeyText(b) {
      CachedMethodIsPlain(a);
      CachedMethodIsPlain(b);
      CutFromLeft(':', p, q, 3);
      assert forall i :: 0 <= i < 3 ==> p[i] == p[..3][i] == q[..3][i] == q[i];
      assert p[0] == q[0] && p[1] == q[1] && p[2] == q[2];
      assert p[3..] == [p[3]] && q[3..] == [q[3]];
      JoinOne(p[3], ":");
      JoinOne(q[3], ":");
    }
  }

  lemma ColonSplits(s: string, i: nat)
    requires i < |s| && s[i] == ':'
    ensures s == s[..i] + ":" + s[i + 1..]
  {
  }

  lemma MovedColon(a: string, x: string, y: string, b: string)
    ensures a + ":" + (x + ":" + y) + ":" + b == a + ":" + x + ":" + (y + ":" + b)
    ensures a + ":" + (x + ":" + y) + ":" + b == (a + ":" + x) + ":" + y + ":" + b
  {
    assert a + ":" + (x + ":" + y) == a + ":" + x + ":" + y;
    assert (a + ":" + x + ":" + y) + ":" + b == a + ":" + x + ":" + (y + ":" + b);
  }

  /** A request that shares its text with no other: the key may be a colon alone. */
  predicate Distinguished(r: Request) {
    && Without(r.path, ':') && Without(r.principal, ':')
    && (Without(r.idempotencyKey, ':') || r.idempotencyKey == ":")
  }

  /** Every other request that is cached shares its text with a different cached request. */
  lemma ColonsMakeKeysAmbiguous(r: Request) returns (other: Request)
    requires Cached(r) && !Distinguished(r)
    ensures Cached(other) && KeyText(other) == KeyText(r) && !SameRequest(other, r)
  {
    hide Join, KeyText;
    var m, path, key, principal := r.httpMethod, r.path, r.idempotencyKey, r.principal;
    KeyTextIs(r);
    if !Without(path, ':') {
      var i :| 0 <= i < |path| && path[i] == ':';
      var x, y := path[..i], path[i + 1..];
      ColonSplits(path, i);
      other := r.(path := x, idempotencyKey := y + ":" + key);
      MovedColon(m, x, y, key);
      assert |x| < |path|;
    } else if !Without(principal, ':') {
      var i :| 0 <= i < |principal| && principal[i] == ':';
      var x, y := principal[..i], principal[i + 1..];
      ColonSplits(principal, i);
      other := r.(idempotencyKey := key + ":" + x, principal := y);
      AppendedColon(m + ":" + path, key, x, y);
      assert |y| < |principal|;
    } else {
      var i :| 0 <= i < |key| && key[i] == ':';
      var x, y := key[..i], key[i + 1..];
      ColonSplits(key, i);
      MovedColon(m + ":" + path, x, y, principal);
      if x != "" {
        other := r.(idempotencyKey := x, principal := y + ":" + principal);
        assert |x| < |key|;
      } else {
        other := r.(path := path + ":", idempotencyKey := y);
        assert m + ":" + path + ":" + x == m + ":" + (path + ":");
        assert |other.path| > |path|;
      }
    }
    KeyTextIs(other);
  }

  lemma AppendedColon(a: string, key: string, x: string, y: string)
    ensures a + ":" + key + ":" + (x + ":" + y) == a + ":" + (key + ":" + x) + ":" + y
  {
    assert a + ":" + key + ":" + (x + ":" + y) == a + ":" + key + ":" + x + ":" + y;
    assert a + ":" + (key + ":" + x) == a + ":" + key + ":" + x;
  }

  /** A text of three parts, told from the places of the two colons that cut it. */
  lemma CutAtColons(s: string, path: string, key: string, principal: string)
    requires s == path + ":" + key + ":" + principal
    ensures |path| + 1 + |key| < |s| && s[|path|] == ':' && s[|path| + 1 + |key|] == ':'
    ensures path == s[..|path|] && key == s[|path| + 1..|path| + 1 + |key|] && principal == s[|path| + 2 + |key|..]
  {
  }

  lemma OnlyTheseColons(s: string, path: string, key: string, principal: string, i: nat)
    requires s == path + ":" + key + ":" + principal && Without(path, ':') && Without(principal, ':')
    requires i < |s| && s[i] == ':'
    ensures |path| <= i <= |path| + 1 + |key|
    ensures Without(key, ':') ==> i == |path| || i == |path| + 1 + |key|
  {
    assert forall k :: 0 <= k < |path| ==> s[k] == path[k];
    assert forall k :: |path| < k < |path| + 1 + |key| ==> s[k] == key[k - |path| - 1];
    assert forall k :: |path| + 1 + |key| < k < |s| ==> s[k] == principal[k - |path| - 2 - |key|];
  }

  /** A distinguished request cuts its text in the only way that leaves a key. */
  lemma OnlyCut(r: Request, other: Request, s: string)
    requires Distinguished(r) && other.idempotencyKey != ""
    requires s == r.path + ":" + r.idempotencyKey + ":" + r.principal
    requires s == other.path + ":" + other.idempotencyKey + ":" + other.principal
    ensures r.path == other.path && r.idempotencyKey == other.idempotencyKey && r.principal == other.principal
  {
    hide Without;
    CutAtColons(s, r.path, r.idempotencyKey, r.principal);
    CutAtColons(s, other.path, other.idempotencyKey, other.principal);
    OnlyTheseColons(s, r.path, r.idempotencyKey, r.principal, |other.path|);
    OnlyTheseColons(s, r.path, r.idempotencyKey, r.principal, |other.path| + 1 + |other.idempotencyKey|);
    assert |r.path| == |other.path| && |r.idempotencyKey| == |other.idempotencyKey|;
  }

  lemma DistinguishedIsAlone(r: Request, other: Request)
    requires Cached(r) && Cached(other) && Distinguished(r) && KeyText(other) == KeyText(r)
    ensures SameRequest(other, r)
  {
    hide Join, KeyText, Without, Distinguished;
    KeyTextIs(r);
    KeyTextIs(other);
    CachedMethodIsPlain(r);
    CachedMethodIsPlain(other);
    var s, t := r.path + ":" + r.idempotencyKey + ":" + r.principal,
                other.path + ":" + other.idempotencyKey + ":" + other.principal;
    BehindMethod(r);
    BehindMethod(other);
    CutAtFirst(':', r.httpMethod, other.httpMethod, s, t);
    OnlyCut(r, other, s);
  }

  lemma BehindMethod(r: Request)
    ensures r.httpMethod + ":" + r.path + ":" + r.idempotencyKey + ":" + r.principal ==
            r.httpMethod + [':'] + (r.path + ":" + r.idempotencyKey + ":" + r.principal)
  {
  }

  /** A cached request has a text, and with it a record, of its own exactly when its path and its
      principal hold no colon, and its key none either or nothing else. */
  lemma KeyTextIsOwnIff(r: Request)
    requires Cached(r)
    ensures (forall other :: Cached(other) && KeyText(other) == KeyText(r) ==> SameRequest(other, r)) <==>
            Distinguished(r)
  {
    hide Join, KeyText, Distinguished, SameRequest;
    if Distinguished(r) {
      forall other | Cached(other) && KeyText(other) == KeyText(r) ensures SameRequest(other, r) {
        DistinguishedIsAlone(r, other);
      }
    } else {
      var other := ColonsMakeKeysAmbiguous(r);
    }
  }

  /** A request without colons in path and key that shares its text with one that has some. */
  lemma ColonInPrincipal(a: Request, b: Request)
    requires a.httpMethod == b.httpMethod == "POST" && a.path == b.path == "/a"
    requires a.idempotencyKey == "k" && a.principal == "x:y" && b.idempotencyKey == "k:x" && b.principal == "y"
    ensures Cached(a) && Plain(a) && Cached(b) && KeyText(a) == KeyText(b) && !SameRequest(a, b)
  {
    hide Join;
    KeyTextIs(a);
    KeyTextIs(b);
    assert "k" + ":" + "x" == "k:x" && "x" + ":" + "y" == "x:y";
    AppendedColon("POST" + ":" + "/a", "k", "x", "y");
    assert |a.principal| > |b.principal|;
  }

  /** One execution per request: in a serial history of requests without colons, once a request has
      run, the same request is answered from the record until the time to live has passed. */
  lemma OneExecutionPerRequest(hash: string -> string, ttl: int, history: seq<Event>, now: int, i: nat, j: nat)
    requires SoundHash(hash) && Serial(history, now) && i < j < |history|
    requires forall k :: 0 <= k < |history| ==> Digested(hash, history[k])
    requires history[i].Serve? && Executed(ttl, history, i, history[i].request.digest)
    requires history[j].Serve? && SameRequest(history[i].request, history[j].request)
    ensures var first, r := history[i].request, history[j].request;
            && (r.now - first.done <= ttl ==>
                  ReplyTo(StateAt(ttl, history[..j]), ttl, r) == Reply(Recorded(first.outputs), false))
            && (ReplyTo(StateAt(ttl, history[..j]), ttl, r).executed ==> r.now - first.done > ttl)
  {
    hide StateAt, Serial, Join, Recorded, Sent;
    var key := history[i].request.digest;
    assert Digested(hash, history[i]) && Digested(hash, history[j]);
    assert Keyed(history[j], key);
    OneExecutionPerEpoch(ttl, history, now, key, i, j);
  }

  /** Whatever else was asked, the reply to a distinguished request that is not executed is the record
      of an earlier execution of the same request that has not expired. */
  lemma ReplayIsOfSameRequest(hash: string -> string, ttl: int, history: seq<Event>, now: int, j: nat)
      returns (i: nat)
    requires SoundHash(hash) && Serial(history, now) && j < |history| && history[j].Serve?
    requires forall k :: 0 <= k < |history| ==> Digested(hash, history[k])
    requires Distinguished(history[j].request)
    requires !ReplyTo(StateAt(ttl, history[..j]), ttl, history[j].request).executed
    ensures i < j && history[i].Serve? && Executed(ttl, history, i, history[i].request.digest)
    ensures SameRequest(history[i].request, history[j].request)
    ensures ReplyTo(StateAt(ttl, history[..j]), ttl, history[j].request).response ==
            Recorded(history[i].request.outputs)
    ensures history[j].request.now - history[i].request.done <= ttl
  {
    hide StateAt, Serial, Join, Recorded, Sent, Distinguished;
    var r, before := history[j].request, history[..j];
    SerialPrefix(history, now, j);
    StoreHoldsLatest(ttl, before, r.digest, r.now);
    i := LatestRan(ttl, before, r.digest);
    assert before[i] == history[i];
    ExecutedInPrefix(ttl, history, j, i, r.digest);
    assert Digested(hash, history[i]) && Digested(hash, history[j]);
    DistinguishedIsAlone(r, history[i].request);
  }

  lemma {:induction false} SerialPrefix(history: seq<Event>, now: int, j: nat)
    requires Serial(history, now) && j < |history|
    ensures Serial(history[..j], Start(history[j]))
    decreases |history|
  {
    var n := |history| - 1;
    if j < n {
      SerialPrefix(history[..n], Start(history[n]), j);
      assert history[..n][..j] == history[..j];
    }
  }

  lemma {:induction false} LatestRan(ttl: int, history: seq<Event>, key: string) returns (i: nat)
    requires Latest(ttl, history, key).Some?
    ensures Latest(ttl, history, key) == Some(i) && Executed(ttl, history, i, key)
  {
    hide Executed;
    var n := |history| - 1;
    if Executed(ttl, history, n, key) {
      i := n;
    } else {
      i := LatestRan(ttl, history[..n], key);
      ExecutedInPrefix(ttl, history, n, i, key);
    }
  }
}
