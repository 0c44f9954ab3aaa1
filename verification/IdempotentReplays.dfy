/** What clients of the idempotency middleware see, told from their requests and replies. */
module IdempotentReplays {
  import opened Common
  import opened Text
  import opened Idempotency

  /** In a serial history, once a POST or PUT with a key has been executed, the same request is
      answered from its record until the time to live has passed. */
  lemma RepeatedRequestIsReplayed(hash: string -> string, ttl: int, history: seq<Event>, now: int, i: nat, j: nat)
    requires SoundHash(hash) && Serial(history, now) && i < j < |history|
    requires forall k :: 0 <= k < |history| ==> Digested(hash, history[k])
    requires history[i].Serve? && history[j].Serve?
    requires var a, b := history[i].request, history[j].request;
             && (a.httpMethod == "POST" || a.httpMethod == "PUT") && a.idempotencyKey != ""
             && b.httpMethod == a.httpMethod && b.path == a.path
             && b.idempotencyKey == a.idempotencyKey && b.principal == a.principal
             && ReplyTo(StateAt(ttl, history[..i]), ttl, a).executed && b.now - a.done <= ttl
    ensures ReplyTo(StateAt(ttl, history[..j]), ttl, history[j].request) ==
            Reply(Recorded(history[i].request.outputs), false)
  {
    hide StateAt, Serial, Recorded, Sent, Join, SoundHash;
    assert Executed(ttl, history, i, history[i].request.digest);
    OneExecutionPerRequest(hash, ttl, history, now, i, j);
  }

  /** Every other method, and every request without a key, is always executed and stores nothing. */
  lemma OthersAreExecuted(data: Store, ttl: int, r: Request)
    requires (r.httpMethod != "POST" && r.httpMethod != "PUT") || r.idempotencyKey == ""
    ensures ReplyTo(data, ttl, r) == Reply(Sent(r.outputs), true) && After(data, ttl, Serve(r)) == data
  {
  }

  /** When the time to live has passed since every earlier request under the same digest was done,
      a request is executed again. */
  lemma ExpiredRequestRunsAgain(ttl: int, history: seq<Event>, now: int, j: nat)
    requires Serial(history, now) && j < |history| && history[j].Serve?
    requires forall i :: 0 <= i < j && history[i].Serve? && history[i].request.digest == history[j].request.digest ==>
               history[j].request.now - history[i].request.done > ttl
    ensures ReplyTo(StateAt(ttl, history[..j]), ttl, history[j].request) ==
            Reply(Sent(history[j].request.outputs), true)
  {
    hide StateAt, Serial, Recorded, Sent;
    var r, before := history[j].request, history[..j];
    SerialPrefix(history, now, j);
    StoreHoldsLatest(ttl, before, r.digest, r.now);
    if Latest(ttl, before, r.digest).Some? {
      var i := LatestRan(ttl, before, r.digest);
      assert before[i] == history[i];
    }
  }

  /** A record is found up to and at the end of its time to live, not later. */
  lemma RecordLives(data: Store, ttl: int, key: string, now: int)
    ensures Lookup(data, ttl, key, now).Some? <==> key in data && now - data[key].createdAt <= ttl
    ensures Lookup(data, ttl, key, now).Some? ==> Lookup(data, ttl, key, now).value == data[key].response
  {
  }

  /** What is recorded and what is sent grow with the outputs of the handler. */
  lemma ResponsesGrow(outputs: seq<Output>, code: int, text: string)
    ensures Recorded([]) == Sent([]) == Response(200, "")
    ensures Recorded(outputs + [Status(code)]) == Response(code, Recorded(outputs).body)
    ensures Recorded(outputs + [Body(text)]) == Response(Recorded(outputs).status, Recorded(outputs).body + text)
    ensures Sent(outputs + [Status(code)]) ==
            Response(if outputs == [] then code else Sent(outputs).status, Sent(outputs).body)
    ensures Sent(outputs + [Body(text)]) == Response(Sent(outputs).status, Sent(outputs).body + text)
  {
    hide BodyOf;
    BodyGrows(outputs, Status(code));
    BodyGrows(outputs, Body(text));
    assert BodyOf([]) == "" by { NothingWritten([]); }
    assert (outputs + [Status(code)])[..|outputs|] == outputs && (outputs + [Body(text)])[..|outputs|] == outputs;
    assert outputs != [] ==> (outputs + [Status(code)])[0] == outputs[0] == (outputs + [Body(text)])[0];
  }

  lemma {:induction false} BodyGrows(outputs: seq<Output>, o: Output)
    ensures BodyOf(outputs + [o]) == BodyOf(outputs) + if o.Body? then o.text else ""
  {
    if outputs == [] {
      assert outputs + [o] == [o] && [o][1..] == [];
    } else {
      BodyGrows(outputs[1..], o);
      assert (outputs + [o])[1..] == outputs[1..] + [o];
      var head, tail := if outputs[0].Body? then outputs[0].text else "", BodyOf(outputs[1..]);
      var last := if o.Body? then o.text else "";
      assert head + (tail + last) == head + tail + last;
    }
  }
}
