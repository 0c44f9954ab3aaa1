/** What facts cost: the token estimate in terms of the texts they hold. */
module ContextCosts {
  import opened Common
  import opened Text
  import opened ContextBuilder
  import opened ContextPhases

  // ----- the estimate, value by value -----

  /** A text costs a quarter of its bytes, rounded down, wherever it stands; nil costs one token, and
      any other value ten. */
  lemma PlainValuesCost(text: string, length: nat)
    ensures ValueTokens(Nil) == 1 && ValueTokens(Other) == 10
    ensures ValueTokens(Str(text)) == ByteLength(text) / 4 && ValueTokens(Bytes(length)) == length / 4
  {
  }

  lemma {:induction false} ItemsCostFrom(v: Value, from: nat)
    requires v.Array? && from <= |v.items|
    ensures ItemTokens(v, from) == ItemTokens(Array(v.items[from..]), 0)
    decreases |v.items| - from
  {
    hide ValueTokens;
    if from < |v.items| {
      var w := Array(v.items[from..]);
      ItemsCostFrom(v, from + 1);
      ItemsCostFrom(w, 1);
      assert w.items[1..] == v.items[from + 1..];
    }
  }

  /** An array costs what its items cost together. */
  lemma ArraysCost(item: Value, items: seq<Value>)
    ensures ValueTokens(Array([])) == 0
    ensures ValueTokens(Array([item] + items)) == ValueTokens(item) + ValueTokens(Array(items))
  {
    var v := Array([item] + items);
    ItemsCostFrom(v, 1);
    assert v.items[1..] == items;
  }

  lemma {:induction false} EntriesCostAlike(v: Value, w: Value, keys: set<string>)
    requires v.Object? && w.Object? && keys <= v.entries.Keys && keys <= w.entries.Keys
    requires forall k :: k in keys ==> v.entries[k] == w.entries[k]
    ensures EntryTokens(v, keys) == EntryTokens(w, keys)
    decreases keys
  {
    hide ByteLength, ValueTokens;
    if keys != {} {
      var k :| k in keys;
      EntriesInAnyOrder(v, keys, k);
      EntriesInAnyOrder(w, keys, k);
      EntriesCostAlike(v, w, keys - {k});
    }
  }

  /** An object costs what its keys and their values cost together. */
  lemma ObjectsCost(entries: map<string, Value>, key: string, value: Value)
    requires key !in entries
    ensures ValueTokens(Object(map[])) == 0
    ensures ValueTokens(Object(entries[key := value])) ==
            ByteLength(key) / 4 + ValueTokens(value) + ValueTokens(Object(entries))
  {
    hide ByteLength;
    var v, w := Object(entries), Object(entries[key := value]);
    EntriesInAnyOrder(w, w.entries.Keys, key);
    assert w.entries.Keys - {key} == entries.Keys;
    EntriesCostAlike(v, w, entries.Keys);
    var none: map<string, Value> := map[];
    assert none.Keys == {};
  }

  /** A fact costs its key and its value, where a bare nil costs ten. */
  lemma FactsCost(f: Fact)
    ensures Tokens(f) == ByteLength(f.key) / 4 + if f.value == Nil then 10 else ValueTokens(f.value)
  {
  }

  // ----- the texts of a context -----

  /** The bytes of a text beyond its first three. */
  function Beyond(length: nat): nat {
    if length <= 3 then 0 else length - 3
  }

  /** Bytes of all texts and keys in a value, but for up to three of each. */
  ghost function Load(v: Value): nat
    decreases v, 2
  {
    match v
    case Str(text) => Beyond(ByteLength(text))
    case Bytes(length) => Beyond(length)
    case Object(entries) => EntryLoad(v, entries.Keys)
    case Array(items) => ItemLoad(v, 0)
    case _ => 0
  }

  ghost function EntryLoad(v: Value, keys: set<string>): nat
    requires v.Object? && keys <= v.entries.Keys
    decreases v, 1, keys
  {
    if keys == {} then 0
    else
      var key :| key in keys;
      Beyond(ByteLength(key)) + Load(v.entries[key]) + EntryLoad(v, keys - {key})
  }

  ghost function ItemLoad(v: Value, from: nat): nat
    requires v.Array? && from <= |v.items|
    decreases v, 0, |v.items| - from
  {
    if from == |v.items| then 0 else Load(v.items[from]) + ItemLoad(v, from + 1)
  }

  lemma BeyondIsPaid(length: nat)
    ensures Beyond(length) <= 4 * (length / 4)
  {
  }

  lemma {:induction false} LoadIsPaid(v: Value)
    ensures Load(v) <= 4 * ValueTokens(v)
    decreases v, 2
  {
    hide ByteLength, Beyond, EntryLoad, ItemLoad, EntryTokens, ItemTokens;
    match v
    case Str(text) => BeyondIsPaid(ByteLength(text));
    case Bytes(length) => BeyondIsPaid(length);
    case Object(entries) => EntryLoadIsPaid(v, entries.Keys);
    case Array(items) => ItemLoadIsPaid(v, 0);
    case Nil =>
    case Other =>
  }

  lemma {:induction false} EntryLoadIsPaid(v: Value, keys: set<string>)
    requires v.Object? && keys <= v.entries.Keys
    ensures EntryLoad(v, keys) <= 4 * EntryTokens(v, keys)
    decreases v, 1, keys
  {
    hide ByteLength, Beyond, Load, ValueTokens;
    if keys != {} {
      var key :| key in keys
        && EntryLoad(v, keys) == Beyond(ByteLength(key)) + Load(v.entries[key]) + EntryLoad(v, keys - {key});
      EntriesInAnyOrder(v, keys, key);
      BeyondIsPaid(ByteLength(key));
      LoadIsPaid(v.entries[key]);
      EntryLoadIsPaid(v, keys - {key});
    }
  }

  lemma {:induction false} ItemLoadIsPaid(v: Value, from: nat)
    requires v.Array? && from <= |v.items|
    ensures ItemLoad(v, from) <= 4 * ItemTokens(v, from)
    decreases v, 0, |v.items| - from
  {
    hide Load, ValueTokens;
    if from < |v.items| {
      LoadIsPaid(v.items[from]);
      ItemLoadIsPaid(v, from + 1);
    }
  }

  ghost function TotalLoad(facts: seq<Fact>): nat {
    if facts == [] then 0
    else TotalLoad(facts[..|facts| - 1]) + Beyond(ByteLength(facts[|facts| - 1].key)) + Load(facts[|facts| - 1].value)
  }

  lemma {:induction false} TotalLoadIsPaid(facts: seq<Fact>)
    ensures TotalLoad(facts) <= 4 * Total(facts)
  {
    hide ByteLength, Beyond, Load, ValueTokens;
    if facts != [] {
      var f := facts[|facts| - 1];
      TotalLoadIsPaid(facts[..|facts| - 1]);
      BeyondIsPaid(ByteLength(f.key));
      LoadIsPaid(f.value);
      FactsCost(f);
      assert Load(Nil) == 0 by { NilIsLight(); }
    }
  }

  lemma NilIsLight()
    ensures Load(Nil) == 0
  {
  }

  /** The texts and keys of a context, but for up to three bytes of each, take at most four bytes for
      every token of its estimate, and so of its budget. */
  lemma ContextLoadIsPaid(o: Options, d: CaseData)
    requires Fits(Effective(o.maxTokens, o.maxFacts), Head(o, d))
    ensures TotalLoad(Collected(o, d)) <= 4 * Total(Collected(o, d))
    ensures Total(Collected(o, d)) <= Effective(o.maxTokens, o.maxFacts).maxTokens
  {
    hide Total, TotalLoad, PushPhases, Offers, Head, Push;
    TotalLoadIsPaid(Collected(o, d));
    PhasesFit(Effective(o.maxTokens, o.maxFacts), Head(o, d), Offers(o, d), |Offers(o, d)|);
  }
}
