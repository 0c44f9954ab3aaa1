/** The lexical grammar of migration scripts as the script splitter reads it: single-quoted
    literals with doubled quotes, dollar-quoted literals, line comments and flat block
    comments, and the semicolons that separate statements.  */
module SqlLexer {
  import opened Common
  import opened Text

  datatype Token =
    | Literal(text: string)                                            // '...'
    | Dollar(tag: string, body: string, closed: bool, lost: string)    // $tag$...$tag$
    | Comment(text: string)
    | Separator                                                        // a top-level ;
    | Plain(c: char)

  function Fence(tag: string): (fence: string)
    ensures |fence| == |tag| + 2
  {
    "$" + tag + "$"
  }

  /** The part of a token that belongs to a statement. */
  function Kept(t: Token): string {
    match t
    case Literal(text) => text
    case Dollar(tag, body, closed, _) => Fence(tag) + body + (if closed then Fence(tag) else "")
    case Comment(_) => ""
    case Separator => ""
    case Plain(c) => [c]
  }

  /** The stretch of the script that a token covers. */
  function Source(t: Token): string {
    match t
    case Dollar(_, _, _, lost) => Kept(t) + lost
    case Comment(text) => text
    case Separator => ";"
    case _ => Kept(t)
  }

  // ----- where a token ends -----

  /** Length of what follows an opening quote up to and including the closing one; a doubled
      quote does not close. */
  function LiteralTail(s: string): (k: nat)
    ensures k <= |s|
  {
    if s == "" then 0
    else if s[0] != '\'' then 1 + LiteralTail(s[1..])
    else if |s| > 1 && s[1] == '\'' then 2 + LiteralTail(s[2..])
    else 1
  }

  function LineTail(s: string): (k: nat)
    ensures k <= |s|
  {
    if s == "" then 0 else if s[0] == '\n' then 1 else 1 + LineTail(s[1..])
  }

  function BlockTail(s: string): (k: nat)
    ensures k <= |s|
  {
    if s == "" then 0
    else if s[0] == '*' && |s| > 1 && s[1] == '/' then 2
    else 1 + BlockTail(s[1..])
  }

  predicate OccursAt(s: string, part: string, k: nat) {
    k + |part| <= |s| && s[k..k + |part|] == part
  }

  /** Position of the first occurrence of `part`, as `strings.Index` finds it. */
  function Index(s: string, part: string): (r: Option<nat>)
    ensures r.Some? ==> r.value + |part| <= |s| && OccursAt(s, part, r.value)
    ensures forall k :: 0 <= k && (r.Some? ==> k < r.value) ==> !OccursAt(s, part, k)
  {
    if OccursAt(s, part, 0) then Some(0)
    else if s == "" then None
    else
      var r := Index(s[1..], part);
      assert forall k :: 0 < k && OccursAt(s, part, k) ==> OccursAt(s[1..], part, k - 1);
      if r.Some? then
        assert s[r.value + 1..r.value + 1 + |part|] == s[1..][r.value..r.value + |part|];
        Some(r.value + 1)
      else None
  }

  predicate IsTagStart(c: char) {
    'a' <= c <= 'z' || 'A' <= c <= 'Z' || c == '_'
  }

  predicate IsTagChar(c: char) {
    IsTagStart(c) || '0' <= c <= '9'
  }

  predicate IsTag(tag: string) {
    tag != "" ==> IsTagStart(tag[0]) && forall i :: 0 <= i < |tag| ==> IsTagChar(tag[i])
  }

  /** Number of tag characters before the next dollar sign, if only tag characters precede it. */
  function TagLength(s: string): (r: Option<nat>)
    ensures r.Some? ==> r.value < |s| && s[r.value] == '$' && forall i :: 0 <= i < r.value ==> IsTagChar(s[i])
    ensures r.None? ==> forall k :: 0 <= k < |s| && s[k] == '$' ==> exists i :: 0 <= i < k && !IsTagChar(s[i])
  {
    if s == "" then None
    else if s[0] == '$' then Some(0)
    else if !IsTagChar(s[0]) then None
    else
      var r := TagLength(s[1..]);
      assert forall k :: 0 < k < |s| ==> s[k] == s[1..][k - 1];
      if r.Some? then Some(r.value + 1) else None
  }

  /** The tag of the dollar quote that opens at the start of `s`. An opening needs three
      characters, so a `$$` that ends the script opens nothing. */
  function DollarTag(s: string): (r: Option<string>)
    ensures r.Some? ==> |s| >= 3 && Fence(r.value) <= s && IsTag(r.value)
  {
    if |s| < 3 || s[0] != '$' then None
    else if s[1] == '$' then Some("")
    else if !IsTagStart(s[1]) then None
    else match TagLength(s[1..])
      case None => None
      case Some(k) =>
        assert s[1..1 + k] == s[1..][..k];
        assert s == "$" + s[1..1 + k] + s[1..][k..];
        Some(s[1..1 + k])
  }

  lemma DollarTagIsExact(s: string, tag: string)
    requires IsTag(tag) && |s| >= 3 && Fence(tag) <= s
    ensures DollarTag(s) == Some(tag)
  {
    assert forall i :: 0 <= i < |tag| ==> s[i + 1] == Fence(tag)[i + 1] == tag[i];
    assert s[|tag| + 1] == Fence(tag)[|tag| + 1] == '$';
    if tag != "" {
      assert s[1..][|tag|] == '$';
      var r := TagLength(s[1..]);
      assert r.Some? by {
        assert forall i :: 0 <= i < |tag| ==> IsTagChar(s[1..][i]);
      }
      assert r.value == |tag|;
      assert s[1..1 + |tag|] == tag;
    }
  }

  // ----- tokens -----

  /** Text after a closing dollar fence that the splitter skips. The search for the fence
      yields a byte offset, which the splitter adds to an index that counts characters: it
      runs past the fence by the number of extra bytes in the body. */
  function Overrun(body: string, after: string): (lost: string)
    ensures lost <= after
    ensures lost == "" <==> after == "" || Ascii(body)
  {
    ByteLengthExceedsUnlessAscii(body);
    var extra := ByteLength(body) - |body|;
    if extra <= |after| then after[..extra] else after
  }

  lemma FencedBody(s: string, fence: string, k: nat)
    requires fence <= s && OccursAt(s[|fence|..], fence, k)
    ensures s == fence + s[|fence|..][..k] + fence + s[|fence|..][k + |fence|..]
  {
  }

  function DollarToken(s: string, tag: string): (t: Token)
    requires Fence(tag) <= s
    ensures t.Dollar? && t.tag == tag && Source(t) <= s && Kept(t) <= s
    ensures t.lost == "" <==> !t.closed || Kept(t) == s || Ascii(t.body)
  {
    var fence := Fence(tag);
    var rest := s[|fence|..];
    match Index(rest, fence)
    case None => Dollar(tag, rest, false, "")
    case Some(k) =>
      FencedBody(s, fence, k);
      Dollar(tag, rest[..k], true, Overrun(rest[..k], rest[k + |fence|..]))
  }

  /** The token at the start of a script. */
  function Next(s: string): (t: Token)
    requires s != ""
    ensures Source(t) != "" && Source(t) <= s
    ensures t.Dollar? ==> Kept(t) <= s && (t.lost == "" <==> !t.closed || Kept(t) == s || Ascii(t.body))
  {
    if s[0] == '\'' then
      Literal(s[..1 + LiteralTail(s[1..])])
    else if s[0] == '-' && |s| > 1 && s[1] == '-' then
      Comment(s[..2 + LineTail(s[2..])])
    else if s[0] == '/' && |s| > 1 && s[1] == '*' then
      Comment(s[..2 + BlockTail(s[2..])])
    else if DollarTag(s).Some? then
      DollarToken(s, DollarTag(s).value)
    else if s[0] == ';' then
      Separator
    else
      Plain(s[0])
  }

  function Rest(s: string): (r: string)
    requires s != ""
    ensures s == Source(Next(s)) + r && |r| < |s|
  {
    s[|Source(Next(s))|..]
  }

  /** The tokens of a script, as the splitter reads it. */
  function Lex(s: string): seq<Token> {
    if s == "" then [] else [Next(s)] + Lex(Rest(s))
  }

  function Sources(toks: seq<Token>): string {
    if toks == [] then "" else Source(toks[0]) + Sources(toks[1..])
  }

  /** Reading a script into tokens loses nothing: the tokens cover it end to end. */
  lemma {:induction false} LexCoversScript(s: string)
    ensures Sources(Lex(s)) == s
  {
    if s != "" {
      LexCoversScript(Rest(s));
    }
  }

  // ----- the grammar without the overrun -----

  function WithoutOverrun(t: Token): Token {
    if t.Dollar? then t.(lost := "") else t
  }

  /** The tokens of a script when the text after a closing fence is read, not skipped. */
  function IdealLex(s: string): seq<Token>
    decreases |s|
  {
    if s == "" then []
    else
      var t := WithoutOverrun(Next(s));
      assert |Source(t)| > 0;
      [t] + IdealLex(s[|Source(t)|..])
  }

  /** Every dollar-quoted literal that is closed before the end of the script has an ASCII body. */
  predicate DollarBodiesAscii(toks: seq<Token>) {
    forall i :: 0 <= i < |toks| - 1 && toks[i].Dollar? && toks[i].closed ==> Ascii(toks[i].body)
  }

  lemma NextWithoutOverrun(s: string)
    requires s != ""
    ensures var t, u := Next(s), WithoutOverrun(Next(s));
            && u == IdealLex(s)[0] && Source(u) <= s && IdealLex(s)[1..] == IdealLex(s[|Source(u)|..])
            && (t == u ==> s[|Source(u)|..] == Rest(s))
            && (t == u <==> (u.Dollar? && u.closed && s[|Source(u)|..] != "" ==> Ascii(u.body)))
  {
    hide DollarToken, DollarTag, Overrun, Fence;
    var t, u := Next(s), WithoutOverrun(Next(s));
    assert t.Dollar? ==> Source(u) == Kept(t);
    assert s == Source(u) + s[|Source(u)|..];
    assert IdealLex(s)[0] == u;
  }

  /** The splitter reads a script as the grammar intends exactly when every dollar-quoted
      literal closed before the end of the script is ASCII. */
  lemma {:induction false} ReadAsIntendedIffAscii(s: string)
    ensures Lex(s) == IdealLex(s) <==> DollarBodiesAscii(IdealLex(s))
    decreases |s|
  {
    hide Next, Kept, Source, WithoutOverrun, Rest;
    if s != "" {
      var t, u := Next(s), WithoutOverrun(Next(s));
      NextWithoutOverrun(s);
      var rest := s[|Source(u)|..];
      var toks := IdealLex(s);
      assert Lex(s)[0] == t && Lex(s)[1..] == Lex(Rest(s));
      assert rest == "" <==> |toks| == 1;
      assert forall i :: 0 < i < |toks| ==> toks[i] == toks[1..][i - 1];
      assert forall i :: 0 <= i < |toks[1..]| ==> toks[1..][i] == toks[i + 1];
      if t == u {
        assert Source(u) != "";
        ReadAsIntendedIffAscii(rest);
      }
    }
  }
}
