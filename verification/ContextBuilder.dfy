/** The builder that collects facts about a case within a budget of facts and tokens. */
module ContextBuilder {
  import opened Common
  import opened Text

  type Id = nat

  datatype Value =
    | Nil
    | Str(text: string)
    | Bytes(length: nat)
    | Object(entries: map<string, Value>)
    | Array(items: seq<Value>)
    | Other

  datatype Provenance =
    | SourceFact | AIObservation | HumanVerified | RuleResult | HumanDecision | FormSubmission | WorkflowHistory

  datatype Source =
    | CaseMetadata | Person | Evidence | Document | Form | RuleEvaluation | WorkflowInstance | History | Decision
    | Observation

  datatype Fact = Fact(source: Source, sourceId: Id, provenance: Provenance, key: string, value: Value)

  // ----- the token estimate -----

  /** Tokens of a value inside a fact. The entries of an object count without regard to order. */
  ghost function ValueTokens(v: Value): nat
    decreases v, 2
  {
    match v
    case Nil => 1
    case Str(text) => ByteLength(text) / 4
    case Bytes(length) => length / 4
    case Object(entries) => EntryTokens(v, entries.Keys)
    case Array(items) => ItemTokens(v, 0)
    case Other => 10
  }

  ghost function EntryTokens(v: Value, keys: set<string>): nat
    requires v.Object? && keys <= v.entries.Keys
    decreases v, 1, keys
  {
    if keys == {} then 0
    else
      var key :| key in keys;
      ByteLength(key) / 4 + ValueTokens(v.entries[key]) + EntryTokens(v, keys - {key})
  }

  ghost function ItemTokens(v: Value, from: nat): nat
    requires v.Array? && from <= |v.items|
    decreases v, 0, |v.items| - from
  {
    if from == |v.items| then 0 else ValueTokens(v.items[from]) + ItemTokens(v, from + 1)
  }

  /** Tokens of a fact: its key and its value. A bare nil counts like an unknown value here. */
  ghost function Tokens(f: Fact): nat {
    ByteLength(f.key) / 4 + if f.value == Nil then 10 else ValueTokens(f.value)
  }

  /** Any entry may be counted first. */
  lemma {:induction false} EntriesInAnyOrder(v: Value, keys: set<string>, first: string)
    requires v.Object? && first in keys && keys <= v.entries.Keys
    ensures EntryTokens(v, keys) ==
            ByteLength(first) / 4 + ValueTokens(v.entries[first]) + EntryTokens(v, keys - {first})
    decreases keys
  {
    hide ByteLength, ValueTokens;
    var key :| key in keys && EntryTokens(v, keys) ==
      ByteLength(key) / 4 + ValueTokens(v.entries[key]) + EntryTokens(v, keys - {key});
    if key != first {
      EntriesInAnyOrder(v, keys - {key}, first);
      EntriesInAnyOrder(v, keys - {first}, key);
      assert keys - {key} - {first} == keys - {first} - {key};
    }
  }

  /** `estimateValueTokens`: the loops visit the entries of an object in any order. */
  method EstimateValueTokens(v: Value) returns (tokens: nat)
    ensures tokens == ValueTokens(v)
    decreases v
  {
    hide ByteLength;
    match v
    case Nil => tokens := 1;
    case Str(text) => tokens := ByteLength(text) / 4;
    case Bytes(length) => tokens := length / 4;
    case Object(entries) =>
      tokens := 0;
      var todo := entries.Keys;
      while todo != {}
        invariant todo <= entries.Keys
        invariant tokens + EntryTokens(v, todo) == EntryTokens(v, entries.Keys)
        decreases todo
      {
        var k :| k in todo;
        EntriesInAnyOrder(v, todo, k);
        todo := todo - {k};
        tokens := tokens + ByteLength(k) / 4;
        var inner := EstimateValueTokens(entries[k]);
        tokens := tokens + inner;
      }
    case Array(items) =>
      tokens := 0;
      for i := 0 to |items|
        invariant tokens + ItemTokens(v, i) == ItemTokens(v, 0)
      {
        var inner := EstimateValueTokens(items[i]);
        tokens := tokens + inner;
      }
    case Other => tokens := 10;
  }

  /** `estimateTokens`. */
  method EstimateTokens(f: Fact) returns (tokens: nat)
    ensures tokens == Tokens(f)
  {
    tokens := ByteLength(f.key) / 4;
    if f.value == Nil {
      tokens := tokens + 10;
    } else {
      var inner := EstimateValueTokens(f.value);
      tokens := tokens + inner;
    }
  }

  // ----- the budget -----

  datatype Limits = Limits(maxTokens: int, maxFacts: int)

  ghost function Total(facts: seq<Fact>): nat {
    if facts == [] then 0 else Total(facts[..|facts| - 1]) + Tokens(facts[|facts| - 1])
  }

  ghost predicate Fits(limits: Limits, facts: seq<Fact>) {
    |facts| <= limits.maxFacts && Total(facts) <= limits.maxTokens
  }

  /** The facts after offering `offered` in order, up to the first that does not fit. */
  ghost function Push(limits: Limits, facts: seq<Fact>, offered: seq<Fact>): seq<Fact>
    decreases |offered|
  {
    if offered == [] then facts
    else if Fits(limits, facts + [offered[0]]) then Push(limits, facts + [offered[0]], offered[1..])
    else facts
  }

  lemma {:induction false} TotalOfConcat(a: seq<Fact>, b: seq<Fact>)
    ensures Total(a + b) == Total(a) + Total(b)
  {
    hide Tokens;
    if b == [] {
      assert a + b == a;
    } else {
      TotalOfConcat(a, b[..|b| - 1]);
      assert (a + b)[..|a + b| - 1] == a + b[..|b| - 1];
    }
  }

  lemma {:induction false} PushIsPrefix(limits: Limits, facts: seq<Fact>, offered: seq<Fact>) returns (n: nat)
    requires Fits(limits, facts)
    ensures n <= |offered| && Push(limits, facts, offered) == facts + offered[..n]
    ensures Fits(limits, facts + offered[..n])
    ensures n < |offered| ==> !Fits(limits, facts + offered[..n + 1])
    decreases |offered|
  {
    hide Fits;
    if offered == [] || !Fits(limits, facts + [offered[0]]) {
      n := 0;
      assert facts + offered[..0] == facts;
      assert offered != [] ==> offered[..1] == [offered[0]];
    } else {
      var m := PushIsPrefix(limits, facts + [offered[0]], offered[1..]);
      n := m + 1;
      assert facts + offered[..n] == facts + [offered[0]] + offered[1..][..m];
      assert n < |offered| ==> facts + offered[..n + 1] == facts + [offered[0]] + offered[1..][..m + 1];
    }
  }

  /** What is taken is the longest prefix of the offer that fits: a prefix fits exactly when it
      is no longer. */
  lemma PushTakesLongestPrefix(limits: Limits, facts: seq<Fact>, offered: seq<Fact>) returns (n: nat)
    requires Fits(limits, facts)
    ensures n <= |offered| && Push(limits, facts, offered) == facts + offered[..n]
    ensures forall k :: 0 <= k <= |offered| ==> (Fits(limits, facts + offered[..k]) <==> k <= n)
  {
    n := PushIsPrefix(limits, facts, offered);
    forall k | 0 <= k <= |offered| ensures Fits(limits, facts + offered[..k]) <==> k <= n {
      if k <= n {
        PrefixCostsLess(limits, facts, offered, k, n);
      } else {
        PrefixCostsLess(limits, facts, offered, n + 1, k);
      }
    }
  }

  lemma PrefixCostsLess(limits: Limits, facts: seq<Fact>, offered: seq<Fact>, k: nat, n: nat)
    requires k <= n <= |offered|
    ensures Fits(limits, facts + offered[..n]) ==> Fits(limits, facts + offered[..k])
  {
    assert facts + offered[..n] == facts + offered[..k] + offered[k..n];
    TotalOfConcat(facts + offered[..k], offered[k..n]);
  }

  lemma PushNext(limits: Limits, facts: seq<Fact>, f: Fact, rest: seq<Fact>)
    ensures Push(limits, facts, [f] + rest) ==
            if Fits(limits, facts + [f]) then Push(limits, facts + [f], rest) else facts
  {
    assert ([f] + rest)[1..] == rest;
  }

  // ----- the builder -----

  class Builder {
    const limits: Limits
    var facts: seq<Fact>
    var tokenCount: int
    var factCount: int

    ghost predicate Valid()
      reads this
    {
      && factCount == |facts| && tokenCount == Total(facts)
      && Fits(limits, facts)
    }

    /** `NewContextBuilder`: limits that are not positive take their defaults. */
    constructor (maxTokens: int, maxFacts: int)
      ensures Valid() && facts == []
      ensures limits == Effective(maxTokens, maxFacts)
    {
      limits := Limits(if maxTokens <= 0 then 8000 else maxTokens, if maxFacts <= 0 then 200 else maxFacts);
      facts, tokenCount, factCount := [], 0, 0;
    }

    /** `AddFact`: takes the fact exactly when it fits. */
    method AddFact(f: Fact) returns (ok: bool)
      requires Valid()
      modifies this
      ensures Valid()
      ensures ok == Fits(limits, old(facts) + [f])
      ensures facts == if ok then old(facts) + [f] else old(facts)
    {
      assert (facts + [f])[..|facts|] == facts;
      if factCount >= limits.maxFacts {
        return false;
      }
      var estTokens := EstimateTokens(f);
      if tokenCount + estTokens > limits.maxTokens {
        return false;
      }
      facts := facts + [f];
      tokenCount := tokenCount + estTokens;
      factCount := factCount + 1;
      return true;
    }
  }

  function Effective(maxTokens: int, maxFacts: int): Limits {
    Limits(if maxTokens <= 0 then 8000 else maxTokens, if maxFacts <= 0 then 200 else maxFacts)
  }
}
