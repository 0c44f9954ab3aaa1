/** What the overrun behind a dollar-quoted literal does to the statements. */
module SqlOverrun {
  import opened Common
  import opened Text
  import opened SqlLexer
  import opened SqlSplitter
  import opened SqlRoundTrip

  /** The text of a closed dollar-quoted literal. */
  function Quoted(tag: string, body: string): string {
    Fence(tag) + body + Fence(tag)
  }

  /** The closing fence is the first one behind the opening fence. */
  predicate IsBody(tag: string, body: string) {
    Index(body + Fence(tag), Fence(tag)) == Some(|body|)
  }

  lemma OpensWithTag(tag: string, body: string, rest: string)
    requires IsTag(tag)
    ensures DollarTag(Quoted(tag, body) + rest) == Some(tag)
    ensures Fence(tag) <= Quoted(tag, body) + rest
    ensures (Quoted(tag, body) + rest)[|Fence(tag)|..] == body + Fence(tag) + rest
  {
    var s := Quoted(tag, body) + rest;
    assert s == Fence(tag) + (body + Fence(tag) + rest);
    DollarTagIsExact(s, tag);
  }

  lemma NextOfQuoted(tag: string, body: string, rest: string)
    requires IsTag(tag) && IsBody(tag, body)
    ensures Next(Quoted(tag, body) + rest) == Dollar(tag, body, true, Overrun(body, rest))
  {
    hide DollarTag, Overrun, Index, IsTag;
    var s, fence := Quoted(tag, body) + rest, Fence(tag);
    OpensWithTag(tag, body, rest);
    DollarTokenIsNext(s, tag);
    var q := body + fence;
    assert q + "" == q;
    QuoteStable(q, "", rest, fence, |body|);
    BehindBody(body, fence, rest);
  }

  lemma BehindBody(body: string, fence: string, rest: string)
    ensures (body + fence + rest)[..|body|] == body
    ensures (body + fence + rest)[|body| + |fence|..] == rest
  {
  }

  lemma KeptOfQuoted(tag: string, body: string, lost: string)
    ensures Kept(Dollar(tag, body, true, lost)) == Quoted(tag, body)
    ensures Source(Dollar(tag, body, true, lost)) == Quoted(tag, body) + lost
  {
  }

  /** How the splitter and how the grammar read a literal and what follows it. */
  lemma ReadsOfQuoted(tag: string, body: string, rest: string)
    requires IsTag(tag) && IsBody(tag, body)
    ensures var lost := Overrun(body, rest);
            && Lex(Quoted(tag, body) + rest) == [Dollar(tag, body, true, lost)] + Lex(rest[|lost|..])
            && IdealLex(Quoted(tag, body) + rest) == [Dollar(tag, body, true, "")] + IdealLex(rest)
  {
    hide Next, Overrun, Kept, Source, Fence;
    var q, lost := Quoted(tag, body), Overrun(body, rest);
    NextOfQuoted(tag, body, rest);
    KeptOfQuoted(tag, body, lost);
    KeptOfQuoted(tag, body, "");
    assert q + "" == q;
    assert q + rest != "" by { assert |q| >= |Fence(tag)| > 0; }
    assert (q + rest)[|q + lost|..] == rest[|lost|..];
    assert (q + rest)[|q|..] == rest;
  }

  /** As many characters are lost as the body has bytes more than characters. */
  lemma OverrunCounts(body: string, after: string)
    ensures var extra := CountFrom(body, '\U{0080}') + CountFrom(body, '\U{0800}') + CountFrom(body, '\U{10000}');
            Overrun(body, after) == after[..if extra <= |after| then extra else |after|]
  {
    hide ByteLength, CountFrom;
    ByteLengthCounts(body);
  }

  // ----- in front of a literal -----

  /** What stands in front, and what follows, are read apart from each other. */
  predicate ReadsApart(p: string, u: string) {
    Lex(p + u) == Lex(p) + Lex(u) && IdealLex(p + u) == IdealLex(p) + IdealLex(u)
  }

  /** The prefix is read as intended and ends between two tokens, whatever follows the literal. */
  ghost predicate EndsBefore(p: string, literal: string) {
    Lex(p) == IdealLex(p) && forall rest :: ReadsApart(p, literal + rest)
  }

  lemma NothingEndsBefore(literal: string)
    ensures EndsBefore("", literal)
  {
    hide Lex, IdealLex;
    EmptyLex();
    forall rest ensures ReadsApart("", literal + rest) {
      assert "" + (literal + rest) == literal + rest;
      assert [] + Lex(literal + rest) == Lex(literal + rest);
      assert [] + IdealLex(literal + rest) == IdealLex(literal + rest);
    }
  }

  /** Tokens without an overrun are the intended ones. */
  lemma {:induction false} NoOverrunIsIdeal(p: string, u: string, n: nat)
    requires n <= |Lex(p + u)| && Sources(Lex(p + u)[..n]) == p && NoOverruns(Lex(p + u)[..n])
    ensures IdealLex(p + u) == Lex(p + u)[..n] + IdealLex(u)
    decreases n
  {
    hide Next, Source, Kept, WithoutOverrun;
    var s, toks := p + u, Lex(p + u);
    if n == 0 {
      assert p == "" && s == u && toks[..0] == [];
    } else {
      var tok := Next(s);
      FirstOfMany(s, n);
      var q := p[|Source(tok)|..];
      assert Source(tok) + Sources(Lex(Rest(s))[..n - 1]) == p;
      assert Rest(s) == q + u by { DropOfConcat(p, u, |Source(tok)|); }
      assert Sources(Lex(Rest(s))[..n - 1]) == q;
      NoOverrunsTail(toks[..n]);
      NoOverrunIsIdeal(q, u, n - 1);
      NextWithoutOverrun(s);
      SameWithoutOverrun(tok);
      assert IdealLex(s) == [tok] + IdealLex(s)[1..];
      assert [tok] + (Lex(q + u)[..n - 1] + IdealLex(u)) == toks[..n] + IdealLex(u);
    }
  }

  predicate NoOverruns(toks: seq<Token>) {
    forall i :: 0 <= i < |toks| ==> toks[i].Dollar? ==> toks[i].lost == ""
  }

  lemma NoOverrunsTail(toks: seq<Token>)
    requires toks != [] && NoOverruns(toks)
    ensures NoOverruns(toks[1..]) && (toks[0].Dollar? ==> toks[0].lost == "")
  {
  }

  lemma SameWithoutOverrun(t: Token)
    requires t.Dollar? ==> t.lost == ""
    ensures WithoutOverrun(t) == t
  {
  }

  lemma ClosedLexes(p: string, u: string)
    requires Closed(p)
    ensures Lex(p + ";" + u) == Lex(p) + [Separator] + Lex(u)
  {
    hide Lex, Closed;
    ClosedReadsAlone(p, ";" + u);
    LexSemicolon(u);
    assert p + (";" + u) == p + ";" + u;
    assert Lex(p) + ([Separator] + Lex(u)) == Lex(p) + [Separator] + Lex(u);
  }

  lemma ClosedLexesIdeally(p: string, u: string)
    requires Closed(p)
    ensures IdealLex(p + ";" + u) == Lex(p) + [Separator] + IdealLex(u)
  {
    hide Lex, IdealLex, Source, Closed;
    var toks := Lex(p) + [Separator];
    ClosedLexes(p, u);
    LexCoversScript(p);
    SourcesSnoc(Lex(p));
    assert (toks + Lex(u))[..|toks|] == toks;
    assert NoOverruns(toks) by { ClosedHasNoOverrun(p); }
    NoOverrunIsIdeal(p + ";", u, |toks|);
  }

  lemma {:induction false} SourcesSnoc(toks: seq<Token>)
    ensures Sources(toks + [Separator]) == Sources(toks) + ";"
  {
    hide Source;
    if toks == [] {
      assert Source(Separator) == ";" by { SeparatorText(); }
      assert Sources([Separator]) == Source(Separator) + Sources([]);
      assert [] + [Separator] == [Separator];
    } else {
      SourcesSnoc(toks[1..]);
      assert (toks + [Separator])[1..] == toks[1..] + [Separator];
      assert Source(toks[0]) + (Sources(toks[1..]) + ";") == Source(toks[0]) + Sources(toks[1..]) + ";";
    }
  }

  lemma SeparatorText()
    ensures Source(Separator) == ";"
  {
  }

  lemma ClosedHasNoOverrun(p: string)
    requires Closed(p)
    ensures NoOverruns(Lex(p) + [Separator])
  {
    hide Lex;
    assert forall i :: 0 <= i < |Lex(p)| ==> Verbatim(Lex(p)[i]);
  }

  /** In particular a closed statement and its semicolon can stand in front of every literal. */
  lemma ClosedStatementEndsBefore(p: string, literal: string)
    requires Closed(p)
    ensures EndsBefore(p + ";", literal)
  {
    hide Lex, IdealLex, Closed;
    EmptyLex();
    ClosedLexes(p, "");
    ClosedLexesIdeally(p, "");
    assert p + ";" + "" == p + ";";
    assert Lex(p) + [Separator] + [] == Lex(p) + [Separator];
    forall rest ensures ReadsApart(p + ";", literal + rest) {
      ClosedLexes(p, literal + rest);
      ClosedLexesIdeally(p, literal + rest);
    }
  }

  // ----- the statements -----

  lemma LiteralSafeBefore(p: string, tag: string, body: string, rest: string)
    requires IsTag(tag) && IsBody(tag, body) && Ascii(body) && DollarBodiesAscii(IdealLex(rest))
    requires EndsBefore(p, Quoted(tag, body))
    ensures Lex(p + (Quoted(tag, body) + rest)) == IdealLex(p + (Quoted(tag, body) + rest))
  {
    hide Lex, IdealLex, DollarBodiesAscii, IsTag, IsBody;
    ReadsOfQuoted(tag, body, rest);
    ReadAsIntendedIffAscii(rest);
    assert ReadsApart(p, Quoted(tag, body) + rest);
  }

  lemma EmptyLex()
    ensures Lex("") == IdealLex("") == [] && "a"[1..] == "" && Lex("a"[1..]) == [] && IdealLex("a") == [Plain('a')]
  {
    NextOfPlainExample();
    assert IdealLex("a"[1..]) == [];
  }

  lemma StatementOfToken(t: Token)
    requires !t.Separator? && Kept(t) != "" && Trimmed(Kept(t))
    ensures Statements([t]) == [Kept(t)]
  {
    hide TrimSpace, Kept;
    AheadStep("", [t]);
    AheadStep(Kept(t), []);
    ExtendNothing(Pieces([t]));
    assert "" + Kept(t) == Kept(t);
    TrimTrimmed(Kept(t));
  }

  /** A text whose last character is not white space keeps it as the last of its last statement. */
  lemma TrimKeepsEnd(s: string)
    requires s != "" && !IsSpace(s[|s| - 1])
    ensures TrimSpace(s) != "" && TrimSpace(s)[|TrimSpace(s)| - 1] == s[|s| - 1]
  {
    hide IsSpace;
    var low := SkipSpace(s, 0);
    assert low < |s|;
    assert SkipSpaceBack(s, low, |s|) == |s|;
  }

  /** The last statement of a script that ends in a token of this text. */
  lemma {:induction false} LastStatement(cur: string, toks: seq<Token>, t: Token)
    requires !t.Separator? && Kept(t) != "" && !IsSpace(Kept(t)[|Kept(t)| - 1])
    ensures var r := Ahead(cur, toks + [t]);
            r != [] && r[|r| - 1] != "" && r[|r| - 1][|r[|r| - 1]| - 1] == Kept(t)[|Kept(t)| - 1]
    decreases |toks|
  {
    hide Kept, TrimSpace, IsSpace, Ahead;
    AheadStep(cur, toks + [t]);
    if toks == [] {
      assert toks + [t] == [t] && [t][1..] == [];
      AheadStep(cur + Kept(t), []);
      TrimKeepsEnd(cur + Kept(t));
    } else {
      assert (toks + [t])[1..] == toks[1..] + [t];
      if toks[0].Separator? {
        LastStatement("", toks[1..], t);
      } else {
        LastStatement(cur + Kept(toks[0]), toks[1..], t);
      }
    }
  }

  lemma LastStatementOf(toks: seq<Token>, t: Token, c: char)
    requires !t.Separator? && Kept(t) != "" && !IsSpace(c) && Kept(t)[|Kept(t)| - 1] == c
    ensures var r := Statements(toks + [t]);
            r != [] && r[|r| - 1] != "" && r[|r| - 1][|r[|r| - 1]| - 1] == c
  {
    hide *;
    StatementsAhead(toks + [t]);
    LastStatement("", toks, t);
  }

  lemma StatementsAhead(toks: seq<Token>)
    ensures Statements(toks) == Ahead("", toks)
  {
    ExtendNothing(Pieces(toks));
  }

  /** Behind a body that is not ASCII, a letter is lost. */
  lemma LetterIsLost(p: string, tag: string, body: string)
    requires IsTag(tag) && IsBody(tag, body) && !Ascii(body) && EndsBefore(p, Quoted(tag, body))
    ensures Statements(Lex(p + (Quoted(tag, body) + "a"))) != Statements(IdealLex(p + (Quoted(tag, body) + "a")))
  {
    hide Lex, IdealLex, Statements, IsTag, IsBody, Ascii, Overrun, Quoted, Next, IsSpace, Fence;
    var q := Quoted(tag, body);
    assert ReadsApart(p, q + "a");
    ReadsOfQuoted(tag, body, "a");
    assert Overrun(body, "a") == "a";
    EmptyLex();
    var t, u := Dollar(tag, body, true, "a"), Dollar(tag, body, true, "");
    var front := Lex(p);
    assert Lex(p + (q + "a")) == front + [t] by { assert [t] + [] == [t]; }
    assert IdealLex(p + (q + "a")) == (front + [u]) + [Plain('a')] by {
      assert front + ([u] + [Plain('a')]) == (front + [u]) + [Plain('a')];
    }
    KeptOfQuoted(tag, body, "a");
    QuotedEnds(tag, body);
    KeptCharacter('a');
    NoSpaces();
    LastStatementOf(front, t, '$');
    LastStatementOf(front + [u], Plain('a'), 'a');
  }

  lemma QuotedEnds(tag: string, body: string)
    ensures Quoted(tag, body) != "" && Quoted(tag, body)[|Quoted(tag, body)| - 1] == '$'
  {
    assert Fence(tag)[|tag| + 1] == '$';
  }

  lemma NoSpaces()
    ensures !IsSpace('a') && !IsSpace('$')
  {
  }

  /** Behind every prefix that is read as intended and ends between two tokens, a dollar-quoted literal
      is safe exactly when its body is ASCII: then the splitter finds the intended statements
      before every continuation that is itself read as intended. */
  lemma LiteralSafeIffAscii(p: string, tag: string, body: string)
    requires IsTag(tag) && IsBody(tag, body) && EndsBefore(p, Quoted(tag, body))
    ensures (forall rest :: DollarBodiesAscii(IdealLex(rest)) ==>
               Statements(Lex(p + (Quoted(tag, body) + rest))) == Statements(IdealLex(p + (Quoted(tag, body) + rest))))
            <==> Ascii(body)
  {
    hide Lex, IdealLex, Statements, IsTag, IsBody, Ascii, Quoted, EndsBefore;
    if Ascii(body) {
      forall rest | DollarBodiesAscii(IdealLex(rest))
        ensures Statements(Lex(p + (Quoted(tag, body) + rest))) ==
                Statements(IdealLex(p + (Quoted(tag, body) + rest)))
      {
        LiteralSafeBefore(p, tag, body, rest);
      }
    } else {
      LetterIsLost(p, tag, body);
      EmptyLex();
      assert DollarBodiesAscii(IdealLex("a"));
    }
  }

  /** A script that is read otherwise than intended can still be split as intended: here the overrun
      skips white space that trimming would have cut off. */
  lemma OverrunCanBeHarmless()
    ensures Lex("$$\U{00E9}$$ ") != IdealLex("$$\U{00E9}$$ ")
    ensures Statements(Lex("$$\U{00E9}$$ ")) == Statements(IdealLex("$$\U{00E9}$$ ")) == ["$$\U{00E9}$$"]
  {
    hide Lex, IdealLex, Statements, TrimSpace;
    var q := "$$\U{00E9}$$";
    BodyExample();
    ReadsOfQuoted("", "\U{00E9}", " ");
    assert Quoted("", "\U{00E9}") == q && q + " " == "$$\U{00E9}$$ ";
    var t, u := Dollar("", "\U{00E9}", true, " "), Dollar("", "\U{00E9}", true, "");
    SpaceExample();
    KeptOfQuoted("", "\U{00E9}", " ");
    KeptOfQuoted("", "\U{00E9}", "");
    StatementOfToken(t);
    StatementAndSpace(u, q);
    assert [t] + [] == [t] && [u] + [Plain(' ')] == [u, Plain(' ')];
  }

  lemma BodyExample()
    ensures IsTag("") && IsBody("", "\U{00E9}") && Overrun("\U{00E9}", " ") == " "
  {
    var rest := "\U{00E9}$$";
    assert Fence("") == "$$";
    assert rest[0..2][0] == '\U{00E9}' && "$$"[0] == '$';
    assert !OccursAt(rest, "$$", 0) && rest[1..3] == "$$" && OccursAt(rest, "$$", 1);
    assert "\U{00E9}"[1..] == "" && ByteLength("\U{00E9}") == 2;
    assert " "[..1] == " ";
  }

  lemma SpaceExample()
    ensures Lex(" "[1..]) == [] && IdealLex(" ") == [Plain(' ')]
  {
    assert " "[1..] == "" && Next(" ") == Plain(' ');
    assert IdealLex(" "[1..]) == [];
  }

  lemma StatementAndSpace(t: Token, text: string)
    requires !t.Separator? && Kept(t) == text && text != "" && Trimmed(text)
    ensures Statements([t, Plain(' ')]) == [text]
  {
    hide TrimSpace, Kept;
    AheadStep("", [t, Plain(' ')]);
    AheadStep(text, [Plain(' ')]);
    AheadStep(text + [' '], []);
    ExtendNothing(Pieces([t, Plain(' ')]));
    KeptCharacter(' ');
    assert [t, Plain(' ')][1..] == [Plain(' ')] && "" + text == text;
    TrimOneSpace(text);
  }

  lemma TrimOneSpace(text: string)
    requires text != "" && Trimmed(text)
    ensures TrimSpace(text + [' ']) == text
  {
    var s := text + [' '];
    assert SkipSpace(s, 0) == 0;
    assert SkipSpaceBack(s, 0, |s|) == SkipSpaceBack(s, 0, |text|) == |text|;
    assert s[..|text|] == text;
  }
}
