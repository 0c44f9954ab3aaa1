/** Splitting, joining and splitting again changes nothing. */
module SqlFixpoint {
  import opened Common
  import opened Text
  import opened SqlLexer
  import opened SqlSplitter
  import opened SqlRoundTrip

  // ----- what a token ends with -----

  lemma {:induction false} ClosingQuote(s: string)
    requires LiteralTail(s) < |s|
    ensures LiteralTail(s) > 0 && s[LiteralTail(s) - 1] == '\''
  {
    if s[0] != '\'' {
      ClosingQuote(s[1..]);
    } else if |s| > 1 && s[1] == '\'' {
      ClosingQuote(s[2..]);
    }
  }

  /** A verbatim token with text after it ends in its delimiter, unless it is a single character. */
  lemma TokenEnd(s: string)
    requires s != "" && Verbatim(Next(s)) && Rest(s) != ""
    ensures Next(s).Plain? || Source(Next(s))[|Source(Next(s))| - 1] in {'\'', '$'}
  {
    hide LiteralTail, DollarTag;
    var t := Next(s);
    if t.Literal? {
      ClosingQuote(s[1..]);
    } else if t.Dollar? {
      DollarEnd(s);
    }
  }

  lemma DollarEnd(s: string)
    requires s != "" && Next(s).Dollar? && Next(s).lost == "" && Rest(s) != ""
    ensures var text := Source(Next(s)); text[|text| - 1] == '$'
  {
    hide DollarTag, Index;
    var t := Next(s);
    DollarTokenIsNext(s, DollarTag(s).value);
    assert t.closed;
    var text := Fence(t.tag) + t.body + Fence(t.tag);
    assert text[|text| - 1] == Fence(t.tag)[|t.tag| + 1];
    assert Source(t) == text;
  }

  // ----- white space in front of and behind a statement -----

  lemma NextIsSpace(c: char, s: string)
    requires IsSpace(c)
    ensures Lex([c] + s) == [Plain(c)] + Lex(s)
  {
    hide Lex;
    LexCharacter(c, s);
  }

  lemma LexCharacter(c: char, s: string)
    requires c != '\'' && c != '-' && c != '/' && c != '$' && c != ';'
    ensures Lex([c] + s) == [Plain(c)] + Lex(s)
  {
    var t := [c] + s;
    assert DollarTag(t).None?;
    assert Next(t) == Plain(c);
    assert Rest(t) == s;
  }

  lemma DropSpaceInFront(c: char, p: string)
    requires IsSpace(c)
    ensures AllVerbatim(Lex([c] + p)) ==> AllVerbatim(Lex(p))
    ensures Closed([c] + p) ==> Closed(p)
  {
    hide Lex, IsSpace;
    NextIsSpace(c, p);
    NextIsSpace(c, p + ";");
    assert [c] + p + ";" == [c] + (p + ";");
    assert ([Plain(c)] + Lex(p))[1..] == Lex(p);
    if AllVerbatim(Lex([c] + p)) {
      TailVerbatim(Lex([c] + p));
    }
    if Closed([c] + p) {
      assert Lex(p + ";") == ([Plain(c)] + Lex(p + ";"))[1..];
      assert Lex([c] + p) + [Separator] == [Plain(c)] + (Lex(p) + [Separator]);
    }
  }

  /** The white space that ends a closed stretch of script is a token of its own. */
  lemma {:induction false} LastIsSpace(q: string, c: char, n: nat)
    requires IsSpace(c)
    requires n < |Lex(q + [c] + ";")| && Sources(Lex(q + [c] + ";")[..n]) == q + [c]
    requires AllVerbatim(Lex(q + [c] + ";")[..n])
    ensures n > 0 && Sources(Lex(q + [c] + ";")[..n - 1]) == q
  {
    hide Next, IsSpace, Source, Verbatim;
    var s := q + [c] + ";";
    var toks, tok, rest := Lex(s), Next(s), Rest(s);
    assert n > 0 by { assert toks[..0] == []; }
    assert toks[..n][0] == tok && toks[..n][1..] == Lex(rest)[..n - 1];
    TailVerbatim(toks[..n]);
    var len := |Source(tok)|;
    assert Source(tok) + Sources(Lex(rest)[..n - 1]) == q + [c];
    if len <= |q| {
      var q' := q[len..];
      assert Source(tok) == s[..len] == q[..len];
      assert rest == q' + [c] + ";";
      assert q + [c] == Source(tok) + (q' + [c]);
      CancelPrefix(Source(tok), Sources(Lex(rest)[..n - 1]), q' + [c]);
      LastIsSpace(q', c, n - 1);
      assert toks[..n - 1][0] == tok && toks[..n - 1][1..] == Lex(rest)[..n - 2];
      assert Source(tok) + q' == q;
    } else {
      assert Source(tok) == q + [c] && rest == ";";
      TokenEnd(s);
      SpaceIsNoDelimiter(c);
      assert Source(tok)[len - 1] == c;
      PlainSource(tok);
      NoMoreTokens(Lex(rest)[..n - 1]);
      assert toks[..n - 1] == [];
    }
  }

  lemma CancelPrefix(a: string, x: string, y: string)
    requires a + x == a + y
    ensures x == y
  {
    assert (a + x)[|a|..] == x && (a + y)[|a|..] == y;
  }

  lemma SpaceIsNoDelimiter(c: char)
    requires IsSpace(c)
    ensures c !in {'\'', '$'} && Neutral(c)
  {
  }

  lemma PlainSource(t: Token)
    ensures t.Plain? ==> |Source(t)| == 1
  {
  }

  lemma NoMoreTokens(toks: seq<Token>)
    requires Sources(toks) == "" && forall i :: 0 <= i < |toks| ==> Source(toks[i]) != ""
    ensures toks == []
  {
  }

  lemma DropSpaceBehindClosed(q: string, c: char)
    requires IsSpace(c) && Closed(q + [c])
    ensures Closed(q)
  {
    hide Lex, IsSpace, Neutral;
    var p := q + [c];
    LexCoversScript(p);
    var n := |Lex(p)|;
    var toks := Lex(p + ";");
    assert toks[..n] == Lex(p);
    LastIsSpace(q, c, n);
    SpaceIsNoDelimiter(c);
    var t := [c] + ";";
    assert p + ";" == q + t;
    assert AllVerbatim(toks[..n - 1]);
    assert Neutral(';') by { SemicolonIsNeutral(); }
    LexStable(q, t, ";", n - 1);
    LexStable(q, t, "", n - 1);
    assert q + "" == q && Lex("") == [] by { LexNothing(); }
    LexSemicolon("");
    assert ";" + "" == ";";
  }

  lemma SemicolonIsNeutral()
    ensures Neutral(';')
  {
  }

  lemma LexNothing()
    ensures Lex("") == []
  {
  }

  lemma {:induction false} OpenLiteralShrinks(s: string, c: char)
    requires c != '\'' && LiteralTail(s + [c]) == |s| + 1
    ensures LiteralTail(s) == |s|
  {
    if s != "" {
      var n := if s[0] == '\'' && |s| > 1 && s[1] == '\'' then 2 else 1;
      LiteralTailStep(s + [c], n);
      assert (s + [c])[n..] == s[n..] + [c];
      OpenLiteralShrinks(s[n..], c);
    }
  }

  /** Cutting white space off the end of a script that is one verbatim statement leaves one
      verbatim statement, even when its last literal was never closed. */
  lemma {:induction false} DropSpaceBehind(q: string, c: char)
    requires IsSpace(c) && AllVerbatim(Lex(q + [c]))
    ensures AllVerbatim(Lex(q))
  {
    hide Next, IsSpace, Verbatim, Neutral;
    var s := q + [c];
    var tok := Next(s);
    SpaceIsNoDelimiter(c);
    TailVerbatim(Lex(s));
    var len := |Source(tok)|;
    if len <= |q| {
      NextStable(q, [c], "");
      assert q + "" == q;
      var q' := q[len..];
      assert Rest(s) == q' + [c] && Rest(q) == q';
      DropSpaceBehind(q', c);
    } else if q != "" {
      WholeTokenShrinks(q, c);
    }
  }

  lemma WholeTokenShrinks(q: string, c: char)
    requires q != "" && IsSpace(c) && Source(Next(q + [c])) == q + [c] && Verbatim(Next(q + [c]))
    ensures AllVerbatim(Lex(q))
  {
    hide IsSpace, DollarTag, DollarToken;
    SpaceIsNoDelimiter(c);
    var s := q + [c];
    if q[0] == '\'' {
      assert s[1..] == q[1..] + [c];
      OpenLiteralShrinks(q[1..], c);
      assert Next(q) == Literal(q) && Rest(q) == "";
    } else {
      assert Next(s).Dollar?;
      OpenQuoteShrinks(q, c, DollarTag(s).value);
    }
  }

  lemma OpenQuoteShrinks(q: string, c: char, tag: string)
    requires q != "" && c != '$' && DollarTag(q + [c]) == Some(tag)
    requires var t := DollarToken(q + [c], tag); Source(t) == q + [c] && t.lost == ""
    ensures AllVerbatim(Lex(q))
  {
    hide DollarTag, Index;
    var s, fence := q + [c], Fence(tag);
    var t := DollarToken(s, tag);
    assert s == Kept(t);
    var text := fence + t.body + fence;
    assert text[|text| - 1] == fence[|tag| + 1] == '$';
    assert !t.closed;
    assert s == fence + t.body + "" == fence + t.body;
    assert fence[|fence| - 1] == '$' && s[|fence| - 1] == '$' && s[|q|] == c;
    var body := q[|fence|..];
    DropOfConcat(q, [c], |fence|);
    NotFoundInPrefix(body, c, fence);
    if |q| >= 3 {
      NextIsOpenQuote(q, tag, body);
    } else {
      BareFence(q);
    }
  }

  lemma NextIsOpenQuote(q: string, tag: string, body: string)
    requires |q| >= 3 && IsTag(tag) && Fence(tag) <= q && body == q[|tag| + 2..] && Index(body, Fence(tag)).None?
    ensures Lex(q) == [Dollar(tag, body, false, "")]
  {
    hide DollarTag, Index, IsTag, Fence;
    DollarTagIsExact(q, tag);
    DollarTokenIsNext(q, tag);
    assert DollarToken(q, tag) == Dollar(tag, body, false, "");
    assert Fence(tag) + body + "" + "" == q;
    assert Rest(q) == "";
  }

  lemma NotFoundInPrefix(body: string, c: char, part: string)
    requires Index(body + [c], part).None?
    ensures Index(body, part).None?
  {
    hide Index;
    forall k: nat | OccursAt(body, part, k)
      ensures OccursAt(body + [c], part, k)
    {
      assert (body + [c])[k..k + |part|] == body[k..k + |part|];
    }
  }

  lemma BareFence(q: string)
    requires |q| == 2 && q[0] == '$' && q[1] == '$'
    ensures Lex(q) == [Plain('$'), Plain('$')]
  {
    assert Next(q) == Plain('$');
    var r := Rest(q);
    assert r == q[1..] && Next(r) == Plain('$') && Rest(r) == "";
    assert Lex(r) == [Plain('$')] + Lex("");
  }

  // ----- trimming -----

  lemma {:induction false} TrimFront(s: string, k: nat)
    requires k <= |s| && forall i :: 0 <= i < k ==> IsSpace(s[i])
    ensures AllVerbatim(Lex(s)) ==> AllVerbatim(Lex(s[k..]))
    ensures Closed(s) ==> Closed(s[k..])
  {
    hide Lex, IsSpace, Closed;
    if k == 0 {
      assert s[0..] == s;
    } else {
      TrimFront(s, k - 1);
      assert s[k - 1..] == [s[k - 1]] + s[k..];
      DropSpaceInFront(s[k - 1], s[k..]);
    }
  }

  lemma {:induction false} TrimBack(s: string, k: nat)
    requires k <= |s| && forall i :: k <= i < |s| ==> IsSpace(s[i])
    ensures AllVerbatim(Lex(s)) ==> AllVerbatim(Lex(s[..k]))
    ensures Closed(s) ==> Closed(s[..k])
    decreases |s| - k
  {
    hide Lex, IsSpace, Closed;
    if k == |s| {
      assert s[..k] == s;
    } else {
      TrimBack(s, k + 1);
      var q, c := s[..k], s[k];
      assert s[..k + 1] == q + [c];
      if AllVerbatim(Lex(s)) { DropSpaceBehind(q, c); }
      if Closed(s) { DropSpaceBehindClosed(q, c); }
    }
  }

  lemma TrimKeepsReading(s: string)
    ensures AllVerbatim(Lex(s)) ==> AllVerbatim(Lex(TrimSpace(s)))
    ensures Closed(s) ==> Closed(TrimSpace(s))
  {
    hide Lex, IsSpace, Closed;
    var low := SkipSpace(s, 0);
    var high := SkipSpaceBack(s, low, |s|);
    TrimBack(s, high);
    SliceOfConcat(s[..high], s[high..], low, high);
    assert s == s[..high] + s[high..];
    TrimFront(s[..high], low);
  }

  // ----- the statements of a comment-free script -----

  predicate CommentFree(toks: seq<Token>) {
    forall i :: 0 <= i < |toks| ==> toks[i] == Separator || Verbatim(toks[i])
  }

  /** The first statement of a script, up to the separator that ends it. */
  lemma {:induction false} FirstSeparator(s: string) returns (p: string, r: string)
    requires CommentFree(Lex(s)) && !AllVerbatim(Lex(s))
    ensures s == p + ";" + r && Closed(p) && CommentFree(Lex(r))
  {
    hide Next, Verbatim, Closed;
    var n;
    p, r, n := FirstSeparatorAt(s);
    ReadUpToSeparator(p, r, n);
  }

  lemma {:induction false} FirstSeparatorAt(s: string) returns (p: string, r: string, n: nat)
    requires CommentFree(Lex(s)) && !AllVerbatim(Lex(s))
    ensures s == p + ";" + r && CommentFree(Lex(r))
    ensures n < |Lex(s)| && Sources(Lex(s)[..n]) == p && AllVerbatim(Lex(s)[..n])
    decreases |s|
  {
    hide Next, Verbatim, AllVerbatim, CommentFree, Rest, Source;
    var toks := Lex(s);
    AllVerbatimOfNothing();
    var tok, rest := Next(s), Rest(s);
    assert toks == [tok] + Lex(rest) && toks[1..] == Lex(rest);
    CommentFreeTail(toks);
    if tok == Separator {
      p, r, n := "", rest, 0;
      SeparatorSource();
      assert toks[..0] == [];
    } else {
      p, r, n := FirstSeparatorAt(rest);
      assert toks[..n + 1] == [tok] + Lex(rest)[..n];
      AllVerbatimCons(tok, Lex(rest)[..n]);
      assert s == Source(tok) + (p + ";" + r) == (Source(tok) + p) + ";" + r;
      p, n := Source(tok) + p, n + 1;
    }
  }

  lemma AllVerbatimOfNothing()
    ensures AllVerbatim([])
  {
  }

  lemma SeparatorSource()
    ensures Source(Separator) == ";"
  {
  }

  lemma AllVerbatimCons(tok: Token, toks: seq<Token>)
    ensures AllVerbatim([tok] + toks) <==> Verbatim(tok) && AllVerbatim(toks)
  {
    assert ([tok] + toks)[0] == tok;
    if Verbatim(tok) && AllVerbatim(toks) {
      assert forall i :: 0 < i < |[tok] + toks| ==> ([tok] + toks)[i] == toks[i - 1];
    }
    assert forall i :: 0 <= i < |toks| ==> toks[i] == ([tok] + toks)[i + 1];
  }

  lemma CommentFreeTail(toks: seq<Token>)
    requires CommentFree(toks) && toks != []
    ensures CommentFree(toks[1..])
    ensures toks[0] != Separator ==> Verbatim(toks[0]) && (AllVerbatim(toks[1..]) ==> AllVerbatim(toks))
  {
    hide Verbatim;
    AllVerbatimCons(toks[0], toks[1..]);
    assert toks == [toks[0]] + toks[1..];
  }

  lemma ReadUpToSeparator(p: string, r: string, n: nat)
    requires n <= |Lex(p + ";" + r)| && Sources(Lex(p + ";" + r)[..n]) == p
    requires AllVerbatim(Lex(p + ";" + r)[..n])
    ensures Closed(p)
  {
    hide Lex;
    var t := ";" + r;
    assert p + ";" + r == p + t;
    LexStable(p, t, ";", n);
    LexStable(p, t, "", n);
    assert p + "" == p && ";" + "" == ";";
    LexNothing();
    LexSemicolon("");
  }

  /** The statements of a comment-free script are trimmed, verbatim and, up to the last, closed. */
  lemma {:induction false} StatementsAreSplittable(s: string)
    requires CommentFree(Lex(s))
    ensures Splittable(Statements(Lex(s)))
    decreases |s|
  {
    hide Lex, Verbatim, Closed, Statements, TrimSpace, IsSpace;
    if AllVerbatim(Lex(s)) {
      StatementsOfOne(s);
      TrimKeepsReading(s);
      var _, _ := TrimSpaceSplits(s);
    } else {
      var p, r := FirstSeparator(s);
      StatementsAreSplittable(r);
      StatementsOfClosed(p, r);
      TrimKeepsReading(p);
      var _, _ := TrimSpaceSplits(p);
      ClosedIsVerbatim(TrimSpace(p));
      SplittableCons(p, Statements(Lex(r)));
    }
  }

  lemma ClosedIsVerbatim(p: string)
    ensures Closed(p) ==> AllVerbatim(Lex(p))
  {
  }

  lemma SplittableCons(p: string, stmts: seq<string>)
    requires Splittable(stmts)
    requires Closed(TrimSpace(p)) && AllVerbatim(Lex(TrimSpace(p))) && Trimmed(TrimSpace(p))
    ensures Splittable(Emit(p) + stmts)
  {
    hide Closed, AllVerbatim, Trimmed, TrimSpace, Lex;
    if TrimSpace(p) != "" {
      var all := [TrimSpace(p)] + stmts;
      assert forall i :: 0 < i < |all| ==> all[i] == stmts[i - 1];
    }
  }

  /** On comment-free scripts, splitting, joining with semicolons and splitting again is the same
      as splitting once. The last statement may hold a literal that is never closed. */
  lemma SplitJoinSplit(sql: string)
    requires CommentFree(Lex(sql))
    ensures Statements(Lex(Join(Statements(Lex(sql)), ";"))) == Statements(Lex(sql))
  {
    hide Lex, Statements, Splittable;
    StatementsAreSplittable(sql);
    JoinThenSplit(Statements(Lex(sql)));
  }
}
