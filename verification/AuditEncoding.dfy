/** The text that is hashed for an audit event, and what it determines. */
module AuditEncoding {
  import opened Common
  import opened Text

  datatype Event<M> = Event(
    id: string,
    organization: string,
    actor: Option<string>,
    action: string,
    resource: string,
    resourceId: Option<string>,
    outcome: string,
    requestId: Option<string>,
    metadata: M,
    timestamp: int,                  // nanoseconds
    previousHash: Option<string>,
    hash: string)

  datatype Error = MetadataUnmarshal

  /** The parts of the encoding that come from libraries: the hash in hexadecimal, metadata as
      JSON (which can fail), and a time in microseconds. */
  datatype Encoders<!M> = Encoders(hash: string -> string, json: M -> Option<string>, stamp: int -> string)

  predicate NoBar(s: string) {
    Without(s, '|')
  }

  ghost predicate Sound<M(!new)>(env: Encoders<M>) {
    && (forall x, y :: env.hash(x) == env.hash(y) ==> x == y)
    && (forall x :: env.hash(x) != "" && NoBar(env.hash(x)))
    && (forall a, b :: env.json(a).Some? && env.json(a) == env.json(b) ==> a == b)
    && (forall t, u :: env.stamp(t) == env.stamp(u) <==> t / 1000 == u / 1000)
    && (forall t :: NoBar(env.stamp(t)))
  }

  /** A nil pointer is hashed like an empty string. */
  function OrEmpty(s: Option<string>): string {
    match s case None => "" case Some(v) => v
  }

  function Fields<M>(env: Encoders<M>, e: Event<M>): seq<string>
    requires env.json(e.metadata).Some?
  {
    [e.organization, OrEmpty(e.actor), e.action, e.resource, OrEmpty(e.resourceId), e.outcome,
     OrEmpty(e.requestId), env.json(e.metadata).value, env.stamp(e.timestamp), OrEmpty(e.previousHash)]
  }

  /** The text that is hashed: ten fields joined by bars. */
  function Encoding<M>(env: Encoders<M>, e: Event<M>): string
    requires env.json(e.metadata).Some?
  {
    Join(Fields(env, e), "|")
  }

  function HashOf<M>(env: Encoders<M>, e: Event<M>): Result<string, Error> {
    if env.json(e.metadata).None? then Err(MetadataUnmarshal) else Ok(env.hash(Encoding(env, e)))
  }

  lemma FieldsAre<M>(env: Encoders<M>, e: Event<M>, parts: seq<string>)
    requires env.json(e.metadata).Some?
    requires parts == [e.organization] + [OrEmpty(e.actor)] + [e.action] + [e.resource] + [OrEmpty(e.resourceId)]
                      + [e.outcome] + [OrEmpty(e.requestId)] + [env.json(e.metadata).value]
                      + [env.stamp(e.timestamp)] + [OrEmpty(e.previousHash)]
    ensures parts == Fields(env, e)
  {
  }

  lemma {:induction false} JoinSnoc(parts: seq<string>, last: string, sep: string)
    requires parts != []
    ensures Join(parts + [last], sep) == Join(parts, sep) + sep + last
  {
    if |parts| > 1 {
      JoinSnoc(parts[1..], last, sep);
      assert (parts + [last])[1..] == parts[1..] + [last];
      var head, tail := parts[0] + sep, Join(parts[1..], sep);
      assert head + (tail + sep + last) == head + tail + sep + last;
    } else {
      assert (parts + [last])[1..] == [last];
    }
  }

  /** `ComputeHash`: writes the fields and bars into the hasher one after the other. */
  method ComputeHash<M>(env: Encoders<M>, e: Event<M>) returns (r: Result<string, Error>)
    ensures r == HashOf(env, e)
  {
    hide Join, Fields;
    ghost var written := [e.organization];
    var h := e.organization;
    JoinOne(e.organization, "|");

    h, written := Write(h, written, if e.actor.Some? then e.actor.value else "");
    h, written := Write(h, written, e.action);
    h, written := Write(h, written, e.resource);
    h, written := Write(h, written, if e.resourceId.Some? then e.resourceId.value else "");
    h, written := Write(h, written, e.outcome);
    h, written := Write(h, written, if e.requestId.Some? then e.requestId.value else "");

    var meta := env.json(e.metadata);
    if meta.None? {
      return Err(MetadataUnmarshal);
    }
    h, written := Write(h, written, meta.value);
    h, written := Write(h, written, env.stamp(e.timestamp));
    h, written := Write(h, written, if e.previousHash.Some? then e.previousHash.value else "");
    FieldsAre(env, e, written);
    return Ok(env.hash(h));
  }

  /** A bar, then a field. */
  method Write(h: string, ghost written: seq<string>, field: string)
      returns (h': string, ghost written': seq<string>)
    requires written != [] && h == Join(written, "|")
    ensures written' == written + [field] && h' == Join(written', "|")
  {
    JoinSnoc(written, field, "|");
    h' := h + "|";
    h' := h' + field;
    written' := written + [field];
  }

  /** The text that is hashed, field by field; a field that is nil is empty. */
  lemma HashedTextIs<M>(env: Encoders<M>, e: Event<M>)
    requires env.json(e.metadata).Some?
    ensures HashOf(env, e) == Ok(env.hash(
              e.organization
              + "|" + (if e.actor.Some? then e.actor.value else "")
              + "|" + e.action
              + "|" + e.resource
              + "|" + (if e.resourceId.Some? then e.resourceId.value else "")
              + "|" + e.outcome
              + "|" + (if e.requestId.Some? then e.requestId.value else "")
              + "|" + env.json(e.metadata).value
              + "|" + env.stamp(e.timestamp)
              + "|" + (if e.previousHash.Some? then e.previousHash.value else "")))
  {
    hide Join;
    var f := Fields(env, e);
    JoinOne(f[0], "|");
    JoinSnoc([f[0]], f[1], "|");
    JoinSnoc([f[0]] + [f[1]], f[2], "|");
    JoinSnoc([f[0]] + [f[1]] + [f[2]], f[3], "|");
    JoinSnoc([f[0]] + [f[1]] + [f[2]] + [f[3]], f[4], "|");
    JoinSnoc([f[0]] + [f[1]] + [f[2]] + [f[3]] + [f[4]], f[5], "|");
    JoinSnoc([f[0]] + [f[1]] + [f[2]] + [f[3]] + [f[4]] + [f[5]], f[6], "|");
    JoinSnoc([f[0]] + [f[1]] + [f[2]] + [f[3]] + [f[4]] + [f[5]] + [f[6]], f[7], "|");
    JoinSnoc([f[0]] + [f[1]] + [f[2]] + [f[3]] + [f[4]] + [f[5]] + [f[6]] + [f[7]], f[8], "|");
    JoinSnoc([f[0]] + [f[1]] + [f[2]] + [f[3]] + [f[4]] + [f[5]] + [f[6]] + [f[7]] + [f[8]], f[9], "|");
    FieldsAre(env, e, [f[0]] + [f[1]] + [f[2]] + [f[3]] + [f[4]] + [f[5]] + [f[6]] + [f[7]] + [f[8]] + [f[9]]);
  }

  // ----- cutting a joined text at its bars -----

  lemma CutAtLastBar(a: string, b: string, x: string, y: string)
    requires NoBar(x) && NoBar(y) && a + "|" + x == b + "|" + y
    ensures a == b && x == y
  {
    var s := a + "|" + x;
    assert s[|a|] == '|' && s[|b|] == '|';
    assert forall i :: |a| < i < |s| ==> s[i] == x[i - |a| - 1];
    assert forall i :: |b| < i < |s| ==> s[i] == y[i - |b| - 1];
    assert |a| == |b|;
    assert a == s[..|a|] && b == s[..|b|];
    assert x == s[|a| + 1..] && y == s[|b| + 1..];
  }

  lemma {:induction false} CutFromRight(p: seq<string>, q: seq<string>, n: nat)
    requires 0 < n <= |p| == |q| && Join(p, "|") == Join(q, "|")
    requires forall i :: n <= i < |p| ==> NoBar(p[i]) && NoBar(q[i])
    ensures p[n..] == q[n..] && Join(p[..n], "|") == Join(q[..n], "|")
    decreases |p|
  {
    hide NoBar, Join;
    if n == |p| {
      assert p[..n] == p && q[..n] == q;
    } else {
      var k := |p| - 1;
      assert p == p[..k] + [p[k]] && q == q[..k] + [q[k]];
      JoinSnoc(p[..k], p[k], "|");
      JoinSnoc(q[..k], q[k], "|");
      CutAtLastBar(Join(p[..k], "|"), Join(q[..k], "|"), p[k], q[k]);
      CutFromRight(p[..k], q[..k], n);
      assert p[..k][..n] == p[..n] && q[..k][..n] == q[..n];
      assert p[n..] == p[..k][n..] + [p[k]] && q[n..] == q[..k][n..] + [q[k]];
    }
  }

  // ----- what the encoding determines -----

  /** Identifiers and hashes never contain a bar. */
  predicate WellTyped<M>(e: Event<M>) {
    NoBar(e.organization) && NoBar(OrEmpty(e.actor)) && NoBar(OrEmpty(e.previousHash))
  }

  /** The free-text fields contain no bar either. */
  predicate Clean<M>(e: Event<M>) {
    && NoBar(e.action) && NoBar(e.resource) && NoBar(OrEmpty(e.resourceId)) && NoBar(e.outcome)
    && NoBar(OrEmpty(e.requestId))
  }

  /** Equal in everything but the event id, the hash, the difference between nil and empty, and
      times within one microsecond. */
  predicate SameContent<M(==)>(a: Event<M>, b: Event<M>) {
    && a.organization == b.organization && OrEmpty(a.actor) == OrEmpty(b.actor)
    && a.action == b.action && a.resource == b.resource
    && OrEmpty(a.resourceId) == OrEmpty(b.resourceId) && a.outcome == b.outcome
    && OrEmpty(a.requestId) == OrEmpty(b.requestId)
    && a.metadata == b.metadata && a.timestamp / 1000 == b.timestamp / 1000
    && OrEmpty(a.previousHash) == OrEmpty(b.previousHash)
  }

  /** The encoding determines the content of clean events, even if their metadata contains bars:
      seven fields are cut off from the left and two from the right. */
  lemma EncodingDeterminesContent<M(!new)>(env: Encoders<M>, a: Event<M>, b: Event<M>)
    requires Sound(env) && env.json(a.metadata).Some? && env.json(b.metadata).Some?
    requires WellTyped(a) && WellTyped(b) && Clean(a) && Clean(b)
    ensures Encoding(env, a) == Encoding(env, b) <==> SameContent(a, b)
  {
    hide Join, Without;
    var p, q := Fields(env, a), Fields(env, b);
    if Encoding(env, a) == Encoding(env, b) {
      CutFromLeft('|', p, q, 7);
      assert forall i :: 0 <= i < 7 ==> p[i] == p[..7][i] == q[..7][i] == q[i];
      assert p[0] == q[0] && p[1] == q[1] && p[2] == q[2] && p[3] == q[3];
      assert p[4] == q[4] && p[5] == q[5] && p[6] == q[6];
      var p', q' := p[7..], q[7..];
      assert p' == [p[7], p[8], p[9]] && q' == [q[7], q[8], q[9]];
      CutFromRight(p', q', 1);
      assert p'[1..][0] == p[8] && p'[1..][1] == p[9] && q'[1..][0] == q[8] && q'[1..][1] == q[9];
      assert p'[..1] == [p[7]] && q'[..1] == [q[7]];
      JoinOne(p[7], "|");
      JoinOne(q[7], "|");
      assert env.json(a.metadata) == env.json(b.metadata);
      assert env.stamp(a.timestamp) == env.stamp(b.timestamp);
      assert SameContent(a, b);
    }
    if SameContent(a, b) {
      assert p == q;
    }
  }

  /** No metadata text ends in a bar and another metadata text. In JSON a bar stands inside a string
      literal, so that an odd number of quotes follows it. */
  ghost predicate TextsStandAlone<M(!new)>(env: Encoders<M>) {
    forall a, b, w :: env.json(a).Some? && env.json(b).Some? ==> env.json(a).value != w + "|" + env.json(b).value
  }

  lemma FirstBar(s: string) returns (x: string, y: string)
    requires !NoBar(s)
    ensures s == x + "|" + y && NoBar(x)
    decreases |s|
  {
    if s[0] == '|' {
      x, y := "", s[1..];
      assert s == "" + "|" + y;
    } else {
      assert !NoBar(s[1..]) by {
        var i :| 0 <= i < |s| && s[i] == '|';
        assert s[1..][i - 1] == '|';
      }
      x, y := FirstBar(s[1..]);
      assert s == [s[0]] + (x + "|" + y) == ([s[0]] + x) + "|" + y;
      x := [s[0]] + x;
    }
  }

  lemma JoinCons(s: string, parts: seq<string>)
    requires parts != []
    ensures Join([s] + parts, "|") == s + "|" + Join(parts, "|")
  {
    assert ([s] + parts)[1..] == parts;
  }

  /** If one of two equal joined texts has no bars but in its last part, the parts agree, or the last
      part ends in the other's. */
  lemma {:induction false} PartsAgreeOrShift(p: seq<string>, q: seq<string>) returns (w: string)
    requires 0 < |p| <= |q| && Join(p, "|") == Join(q, "|")
    requires forall i :: 0 <= i < |p| - 1 ==> NoBar(p[i])
    ensures p == q || p[|p| - 1] == w + "|" + q[|q| - 1]
    decreases |p|
  {
    hide NoBar, Join;
    w := "";
    if |p| == 1 {
      assert p == [p[0]];
      JoinOne(p[0], "|");
      if |q| == 1 {
        assert q == [q[0]];
        JoinOne(q[0], "|");
      } else {
        var k := |q| - 1;
        assert q == q[..k] + [q[k]];
        JoinSnoc(q[..k], q[k], "|");
        w := Join(q[..k], "|");
      }
    } else {
      var p', q' := p[1..], q[1..];
      assert p == [p[0]] + p' && q == [q[0]] + q';
      JoinCons(p[0], p');
      JoinCons(q[0], q');
      assert forall i :: 0 <= i < |p'| ==> p'[i] == p[i + 1];
      if NoBar(q[0]) {
        CutBar(p[0], q[0], Join(p', "|"), Join(q', "|"));
        w := PartsAgreeOrShift(p', q');
      } else {
        var x, y := FirstBar(q[0]);
        JoinCons(y, q');
        assert x + "|" + y + "|" + Join(q', "|") == x + "|" + (y + "|" + Join(q', "|"));
        CutBar(p[0], x, Join(p', "|"), Join([y] + q', "|"));
        w := PartsAgreeOrShift(p', [y] + q');
        assert p' != [y] + q';
      }
    }
  }

  lemma CutBar(a: string, b: string, x: string, y: string)
    requires NoBar(a) && NoBar(b) && a + "|" + x == b + "|" + y
    ensures a == b && x == y
  {
    hide Without;
    CutAtFirst('|', a, b, x, y);
  }

  /** What lies between the identifiers in front and the time behind. */
  function Middle<M>(env: Encoders<M>, e: Event<M>): seq<string>
    requires env.json(e.metadata).Some?
  {
    [e.action, e.resource, OrEmpty(e.resourceId), e.outcome, OrEmpty(e.requestId), env.json(e.metadata).value]
  }

  lemma MiddlesAgree<M(!new)>(env: Encoders<M>, a: Event<M>, b: Event<M>)
    requires Sound(env) && env.json(a.metadata).Some? && env.json(b.metadata).Some?
    requires WellTyped(a) && WellTyped(b) && Encoding(env, a) == Encoding(env, b)
    ensures a.organization == b.organization && OrEmpty(a.actor) == OrEmpty(b.actor)
    ensures env.stamp(a.timestamp) == env.stamp(b.timestamp) && OrEmpty(a.previousHash) == OrEmpty(b.previousHash)
    ensures Join(Middle(env, a), "|") == Join(Middle(env, b), "|")
  {
    hide Join, Without;
    var p, q := Fields(env, a), Fields(env, b);
    CutFromLeft('|', p, q, 2);
    assert p[..2] == [p[0], p[1]] && q[..2] == [q[0], q[1]];
    assert p[0] == p[..2][0] == q[..2][0] == q[0] && p[1] == p[..2][1] == q[..2][1] == q[1];
    var r, s := p[2..], q[2..];
    CutFromRight(r, s, 6);
    assert r[6..] == [p[8], p[9]] && s[6..] == [q[8], q[9]];
    assert r[6..][0] == s[6..][0] && r[6..][1] == s[6..][1];
    assert r[..6] == Middle(env, a) && s[..6] == Middle(env, b);
  }

  /** It is enough that one of the two events is clean, whatever the other one holds. */
  lemma CleanEventIsUnmistakable<M(!new)>(env: Encoders<M>, a: Event<M>, b: Event<M>)
    requires Sound(env) && TextsStandAlone(env) && env.json(a.metadata).Some? && env.json(b.metadata).Some?
    requires WellTyped(a) && WellTyped(b) && Clean(a)
    ensures Encoding(env, a) == Encoding(env, b) <==> SameContent(a, b)
  {
    hide Join, NoBar, Encoding, Sound;
    if Encoding(env, a) == Encoding(env, b) {
      MiddlesAgree(env, a, b);
      var p, q := Middle(env, a), Middle(env, b);
      var w := PartsAgreeOrShift(p, q);
      assert p == q;
      assert p[0] == q[0] && p[1] == q[1] && p[2] == q[2] && p[3] == q[3] && p[4] == q[4] && p[5] == q[5];
      assert env.json(a.metadata) == env.json(b.metadata);
      SoundMeans(env, a.metadata, b.metadata, a.timestamp, b.timestamp);
    }
    if SameContent(a, b) {
      SameContentSameEncoding(env, a, b);
    }
  }

  lemma SoundMeans<M(!new)>(env: Encoders<M>, a: M, b: M, t: int, u: int)
    requires Sound(env) && env.json(a).Some? && env.json(a) == env.json(b) && env.stamp(t) == env.stamp(u)
    ensures a == b && t / 1000 == u / 1000
  {
  }

  lemma SameContentSameEncoding<M(!new)>(env: Encoders<M>, a: Event<M>, b: Event<M>)
    requires Sound(env) && env.json(a.metadata).Some? && SameContent(a, b)
    ensures Encoding(env, a) == Encoding(env, b)
  {
    assert Fields(env, a) == Fields(env, b);
  }

  /** Whatever its other fields are, the last field can be cut off. */
  lemma EncodingDeterminesPrevious<M>(env: Encoders<M>, a: Event<M>, b: Event<M>)
    requires env.json(a.metadata).Some? && env.json(b.metadata).Some?
    requires NoBar(OrEmpty(a.previousHash)) && NoBar(OrEmpty(b.previousHash))
    requires Encoding(env, a) == Encoding(env, b)
    ensures OrEmpty(a.previousHash) == OrEmpty(b.previousHash)
  {
    hide Join, NoBar;
    var p, q := Fields(env, a), Fields(env, b);
    CutFromRight(p, q, 9);
    assert p[9..] == [p[9]] && q[9..] == [q[9]];
  }

  // ----- bars in the free-text fields -----

  lemma BarSplits(s: string) returns (x: string, y: string)
    requires !NoBar(s)
    ensures s == x + "|" + y
  {
    var i :| 0 <= i < |s| && s[i] == '|';
    x, y := s[..i], s[i + 1..];
  }

  lemma MoveBar(p: seq<string>, k: nat, a: string, x: string, y: string)
    requires k + 1 < |p| && p[k] == a + "|" + x && p[k + 1] == y
    ensures Join(p[k := a][k + 1 := x + "|" + y], "|") == Join(p, "|")
    decreases k
  {
    var q := p[k := a][k + 1 := x + "|" + y];
    if k == 0 {
      var r := p[2..];
      assert p[1..] == [y] + r && q[1..] == [x + "|" + y] + r;
      if r == [] {
        assert a + "|" + x + "|" + y == a + "|" + (x + "|" + y);
      } else {
        var t := Join(r, "|");
        assert p[1..][1..] == r && q[1..][1..] == r;
        assert a + "|" + x + "|" + (y + "|" + t) == a + "|" + (x + "|" + y + "|" + t);
      }
    } else {
      MoveBar(p[1..], k - 1, a, x, y);
      assert q[1..] == p[1..][k - 1 := a][k := x + "|" + y];
    }
  }

  /** The condition is needed: an event with a bar in a free-text field shares its encoding with
      an event of different content. */
  lemma BarsMakeEncodingAmbiguous<M>(env: Encoders<M>, e: Event<M>) returns (other: Event<M>)
    requires env.json(e.metadata).Some? && !Clean(e)
    ensures other.metadata == e.metadata && Encoding(env, other) == Encoding(env, e)
    ensures other.action != e.action || other.resource != e.resource || other.outcome != e.outcome
            || OrEmpty(other.resourceId) != OrEmpty(e.resourceId)
  {
    hide Join, NoBar;
    var p := Fields(env, e);
    var x, y;
    if !NoBar(e.action) {
      x, y := BarSplits(e.action);
      other := e.(action := x, resource := y + "|" + e.resource);
      MoveBar(p, 2, x, y, e.resource);
      assert Fields(env, other) == p[2 := x][3 := y + "|" + e.resource];
    } else if !NoBar(e.resource) {
      x, y := BarSplits(e.resource);
      other := e.(resource := x, resourceId := Some(y + "|" + OrEmpty(e.resourceId)));
      MoveBar(p, 3, x, y, OrEmpty(e.resourceId));
      assert Fields(env, other) == p[3 := x][4 := y + "|" + OrEmpty(e.resourceId)];
    } else if !NoBar(OrEmpty(e.resourceId)) {
      x, y := BarSplits(OrEmpty(e.resourceId));
      other := e.(resourceId := Some(x), outcome := y + "|" + e.outcome);
      MoveBar(p, 4, x, y, e.outcome);
      assert Fields(env, other) == p[4 := x][5 := y + "|" + e.outcome];
    } else if !NoBar(e.outcome) {
      x, y := BarSplits(e.outcome);
      other := e.(outcome := x, requestId := Some(y + "|" + OrEmpty(e.requestId)));
      MoveBar(p, 5, x, y, OrEmpty(e.requestId));
      assert Fields(env, other) == p[5 := x][6 := y + "|" + OrEmpty(e.requestId)];
    } else {
      x, y := BarSplits(OrEmpty(e.requestId));
      other := e.(outcome := e.outcome + "|" + x, requestId := Some(y));
      var q := Fields(env, other);
      assert x + "|" + y == OrEmpty(e.requestId);
      MoveBar(q, 5, e.outcome, x, y);
      assert p == q[5 := e.outcome][6 := x + "|" + y];
      assert |other.outcome| > |e.outcome|;
    }
  }
}
