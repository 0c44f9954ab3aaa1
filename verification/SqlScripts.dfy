/** What the splitter makes of scripts, told from their characters alone. */
module SqlScripts {
  import opened Common
  import opened Text
  import opened SqlLexer
  import opened SqlSplitter
  import opened SqlRoundTrip
  import opened SqlFixpoint
  import opened SqlOverrun

  // ----- white space -----

  lemma SpaceIs(c: char)
    ensures IsSpace(c) <==>
            c in {'\t', '\n', '\U{000B}', '\U{000C}', '\r', ' ', '\U{0085}', '\U{00A0}', '\U{1680}', '\U{2000}',
                  '\U{2001}', '\U{2002}', '\U{2003}', '\U{2004}', '\U{2005}', '\U{2006}', '\U{2007}', '\U{2008}',
                  '\U{2009}', '\U{200A}', '\U{2028}', '\U{2029}', '\U{202F}', '\U{205F}', '\U{3000}'}
  {
  }

  lemma {:induction false} NonBlankIsTrimmed(pieces: seq<string>, stmt: string)
    requires stmt in NonBlank(pieces)
    ensures stmt != "" && Trimmed(stmt)
  {
    hide IsSpace, TrimSpace;
    if stmt in Emit(pieces[0]) {
      var _, _ := TrimSpaceSplits(pieces[0]);
    } else {
      NonBlankIsTrimmed(pieces[1..], stmt);
    }
  }

  /** No statement of any script is empty, or begins or ends with white space. */
  lemma StatementsHaveNoSpaceAround(sql: string, stmt: string, c: char)
    requires stmt in Statements(Lex(sql))
    requires c in {'\t', '\n', '\U{000B}', '\U{000C}', '\r', ' ', '\U{0085}', '\U{00A0}', '\U{1680}', '\U{2000}',
                   '\U{2001}', '\U{2002}', '\U{2003}', '\U{2004}', '\U{2005}', '\U{2006}', '\U{2007}', '\U{2008}',
                   '\U{2009}', '\U{200A}', '\U{2028}', '\U{2029}', '\U{202F}', '\U{205F}', '\U{3000}'}
    ensures stmt != "" && stmt[0] != c && stmt[|stmt| - 1] != c
  {
    hide IsSpace, Lex;
    SpaceIs(c);
    NonBlankIsTrimmed(Pieces(Lex(sql)), stmt);
  }

  lemma {:induction false} BlankAhead(cur: string, sql: string)
    requires Blank(cur) && forall i :: 0 <= i < |sql| ==> sql[i] == ';' || IsSpace(sql[i])
    ensures Ahead(cur, Lex(sql)) == []
    decreases |sql|
  {
    hide IsSpace, Lex, Ahead;
    if sql == "" {
      AheadOfNothing(cur);
      assert Emit(cur) == [] by { BlankIsNothing(cur); }
    } else {
      var c, rest := sql[0], sql[1..];
      assert sql == [c] + rest;
      if c == ';' {
        LexSemicolon(rest);
        AheadStep(cur, [Separator] + Lex(rest));
        BlankIsNothing(cur);
        BlankAhead("", rest);
        assert ([Separator] + Lex(rest))[1..] == Lex(rest);
      } else {
        NextIsSpace(c, rest);
        AheadStep(cur, [Plain(c)] + Lex(rest));
        KeptCharacter(c);
        BlankAhead(cur + [c], rest);
        assert ([Plain(c)] + Lex(rest))[1..] == Lex(rest);
      }
    }
  }

  lemma BlankIsNothing(cur: string)
    requires Blank(cur)
    ensures Emit(cur) == []
  {
    hide IsSpace;
    assert SkipSpace(cur, 0) == |cur|;
  }

  /** White space and semicolons alone are no statement. */
  lemma BlankScriptIsEmpty(sql: string)
    requires forall i :: 0 <= i < |sql| ==>
               sql[i] in {';', '\t', '\n', '\U{000B}', '\U{000C}', '\r', ' ', '\U{0085}', '\U{00A0}', '\U{1680}',
                          '\U{2000}', '\U{2001}', '\U{2002}', '\U{2003}', '\U{2004}', '\U{2005}', '\U{2006}',
                          '\U{2007}', '\U{2008}', '\U{2009}', '\U{200A}', '\U{2028}', '\U{2029}', '\U{202F}',
                          '\U{205F}', '\U{3000}'}
    ensures Statements(Lex(sql)) == []
  {
    hide Lex, IsSpace;
    forall i | 0 <= i < |sql| ensures sql[i] == ';' || IsSpace(sql[i]) {
      SpaceIs(sql[i]);
    }
    StatementsAhead(Lex(sql));
    BlankAhead("", sql);
  }

  lemma {:induction false} PlainIsVerbatim(s: string)
    requires forall i :: 0 <= i < |s| ==> s[i] !in {'\'', '-', '/', '$', ';'}
    ensures AllVerbatim(Lex(s))
  {
    hide Lex, IsSpace;
    if s == "" {
      LexNothing();
      AllVerbatimOfNothing();
    } else {
      assert s == [s[0]] + s[1..];
      LexCharacter(s[0], s[1..]);
      PlainIsVerbatim(s[1..]);
      AllVerbatimCons(Plain(s[0]), Lex(s[1..]));
    }
  }

  /** A text without a character that means something to the splitter is one statement, unchanged, if
      it does not begin or end with white space. */
  lemma PlainTextIsOneStatement(s: string)
    requires s != "" && forall i :: 0 <= i < |s| ==> s[i] !in {'\'', '-', '/', '$', ';'}
    requires forall i :: i == 0 || i == |s| - 1 ==>
               s[i] !in {'\t', '\n', '\U{000B}', '\U{000C}', '\r', ' ', '\U{0085}', '\U{00A0}', '\U{1680}',
                         '\U{2000}', '\U{2001}', '\U{2002}', '\U{2003}', '\U{2004}', '\U{2005}', '\U{2006}',
                         '\U{2007}', '\U{2008}', '\U{2009}', '\U{200A}', '\U{2028}', '\U{2029}', '\U{202F}',
                         '\U{205F}', '\U{3000}'}
    ensures Statements(Lex(s)) == [s]
  {
    hide Lex, IsSpace;
    PlainIsVerbatim(s);
    StatementsOfOne(s);
    SpaceIs(s[0]);
    SpaceIs(s[|s| - 1]);
    TrimTrimmed(s);
  }

  // ----- comments -----

  lemma {:induction false} LineTailOf(text: string, rest: string)
    requires forall i :: 0 <= i < |text| ==> text[i] != '\n'
    ensures LineTail(text + "\n" + rest) == |text| + 1
  {
    var s := text + "\n" + rest;
    if text != "" {
      assert s[1..] == text[1..] + "\n" + rest;
      LineTailOf(text[1..], rest);
    }
  }

  /** A line comment vanishes with its line break. */
  lemma LineCommentVanishes(text: string, rest: string)
    requires forall i :: 0 <= i < |text| ==> text[i] != '\n'
    ensures Statements(Lex("--" + text + "\n" + rest)) == Statements(Lex(rest))
  {
    hide Lex, Statements;
    var s := "--" + text + "\n" + rest;
    assert s[2..] == text + "\n" + rest;
    LineTailOf(text, rest);
    CommentVanishes(s, 2 + |text| + 1, rest);
  }

  lemma {:induction false} BlockTailOf(text: string, rest: string)
    requires forall i :: 0 <= i < |text| ==> !((text + "*/")[i] == '*' && (text + "*/")[i + 1] == '/')
    ensures BlockTail(text + "*/" + rest) == |text| + 2
  {
    var s := text + "*/" + rest;
    if text != "" {
      assert s[1..] == text[1..] + "*/" + rest;
      assert s[0] == (text + "*/")[0] && s[1] == (text + "*/")[1];
      forall i | 0 <= i < |text[1..]|
        ensures !((text[1..] + "*/")[i] == '*' && (text[1..] + "*/")[i + 1] == '/')
      {
        assert (text[1..] + "*/")[i] == (text + "*/")[i + 1] && (text[1..] + "*/")[i + 1] == (text + "*/")[i + 2];
      }
      BlockTailOf(text[1..], rest);
    }
  }

  /** A block comment vanishes up to the first end mark; it does not nest. */
  lemma BlockCommentVanishes(text: string, rest: string)
    requires forall i :: 0 <= i < |text| ==> !((text + "*/")[i] == '*' && (text + "*/")[i + 1] == '/')
    ensures Statements(Lex("/*" + text + "*/" + rest)) == Statements(Lex(rest))
  {
    hide Lex, Statements;
    var s := "/*" + text + "*/" + rest;
    assert s[2..] == text + "*/" + rest;
    BlockTailOf(text, rest);
    CommentVanishes(s, 2 + |text| + 2, rest);
  }

  lemma CommentVanishes(s: string, n: nat, rest: string)
    requires n <= |s| && s != "" && Next(s) == Comment(s[..n]) && s[n..] == rest
    ensures Statements(Lex(s)) == Statements(Lex(rest))
  {
    hide Next, Lex;
    assert Source(Next(s)) == s[..n];
    assert Rest(s) == rest;
    StatementsAhead(Lex(s));
    StatementsAhead(Lex(rest));
    ReadToken("", s);
    assert "" + "" == "";
  }

  // ----- string literals -----

  /** A text with its quotes doubled. */
  function Doubled(text: string): string {
    if text == "" then "" else (if text[0] == '\'' then "''" else [text[0]]) + Doubled(text[1..])
  }

  lemma {:induction false} LiteralTailOf(text: string, rest: string)
    requires rest == "" || rest[0] != '\''
    ensures LiteralTail(Doubled(text) + "'" + rest) == |Doubled(text)| + 1
  {
    var s := Doubled(text) + "'" + rest;
    if text == "" {
      assert s == "'" + rest;
      assert rest != "" ==> s[1] == rest[0];
    } else {
      var tail := Doubled(text[1..]) + "'" + rest;
      var n := if text[0] == '\'' then 2 else 1;
      assert s[n..] == tail;
      LiteralTailOf(text[1..], rest);
      assert s[0] == text[0] && (n == 2 ==> s[1] == '\'');
      LiteralTailStep(s, n);
    }
  }

  /** Any text, quoted, is one statement, whatever semicolons, comments and quotes it holds. */
  lemma QuotedTextIsOneStatement(text: string)
    ensures Statements(Lex("'" + Doubled(text) + "'")) == ["'" + Doubled(text) + "'"]
  {
    hide Lex, Statements, Doubled, IsSpace;
    var s := "'" + Doubled(text) + "'";
    LiteralTailOf(text, "");
    assert s[1..] == Doubled(text) + "'" + "";
    assert Next(s) == Literal(s) by { assert s[..|s|] == s; }
    WholeScript(s);
    assert Trimmed(s) by { SpaceIs('\''); }
    StatementOfToken(Literal(s));
  }

  lemma WholeScript(s: string)
    requires s != "" && Source(Next(s)) == s
    ensures Lex(s) == [Next(s)]
  {
    hide Next;
    assert Rest(s) == "";
    assert Lex("") == [];
    assert [Next(s)] + [] == [Next(s)];
  }

  // ----- dollar quotes -----

  lemma TagIs(tag: string)
    requires forall i :: 0 <= i < |tag| ==>
               'A' <= tag[i] <= 'Z' || 'a' <= tag[i] <= 'z' || '0' <= tag[i] <= '9' || tag[i] == '_'
    requires tag != "" ==> !('0' <= tag[0] <= '9')
    ensures IsTag(tag)
  {
  }

  /** The closing fence can be found inside the body already. */
  predicate FenceInside(tag: string, body: string, k: nat)
    requires k < |body|
  {
    (body + "$" + tag + "$")[k..k + |tag| + 2] == "$" + tag + "$"
  }

  lemma BodyIs(tag: string, body: string)
    requires forall k :: 0 <= k < |body| ==> !FenceInside(tag, body, k)
    ensures IsBody(tag, body)
  {
    hide Index;
    var fence := Fence(tag);
    var s := body + fence;
    assert s == body + "$" + tag + "$";
    assert s[|body|..|body| + |fence|] == fence;
    forall k: nat | k < |body| ensures !OccursAt(s, fence, k) {
      assert !FenceInside(tag, body, k);
    }
    assert OccursAt(s, fence, |body|);
  }

  /** A dollar-quoted text is one statement, whatever semicolons and comments it holds: the tag is
      made of letters, digits and underscores and does not begin with a digit, and the closing fence
      is the first one behind the opening fence. */
  lemma DollarQuotedIsOneStatement(tag: string, body: string)
    requires forall i :: 0 <= i < |tag| ==>
               'A' <= tag[i] <= 'Z' || 'a' <= tag[i] <= 'z' || '0' <= tag[i] <= '9' || tag[i] == '_'
    requires tag != "" ==> !('0' <= tag[0] <= '9')
    requires forall k :: 0 <= k < |body| ==> !FenceInside(tag, body, k)
    ensures var quoted := "$" + tag + "$" + body + "$" + tag + "$";
            Statements(Lex(quoted)) == [quoted]
  {
    hide Lex, Statements, IsTag, IsBody, Overrun;
    var q := Quoted(tag, body);
    assert q == "$" + tag + "$" + body + "$" + tag + "$";
    TagIs(tag);
    BodyIs(tag, body);
    ReadsOfQuoted(tag, body, "");
    assert q + "" == q;
    var lost := Overrun(body, "");
    assert lost == "";
    EmptyLex();
    var t := Dollar(tag, body, true, "");
    assert [t] + [] == [t];
    KeptOfQuoted(tag, body, "");
    TerminatedIsTrimmed(t);
    StatementOfToken(t);
  }

  /** With an ASCII body, a semicolon behind it ends the statement and the script goes on. */
  lemma DollarQuotedThenMore(tag: string, body: string, rest: string)
    requires forall i :: 0 <= i < |tag| ==>
               'A' <= tag[i] <= 'Z' || 'a' <= tag[i] <= 'z' || '0' <= tag[i] <= '9' || tag[i] == '_'
    requires tag != "" ==> !('0' <= tag[0] <= '9')
    requires forall i :: 0 <= i < |body| ==> body[i] < '\U{0080}'
    requires forall k :: 0 <= k < |body| ==> !FenceInside(tag, body, k)
    ensures var quoted := "$" + tag + "$" + body + "$" + tag + "$";
            Statements(Lex(quoted + ";" + rest)) == [quoted] + Statements(Lex(rest))
  {
    hide Lex, Statements, IsTag, IsBody;
    assert Quoted(tag, body) == "$" + tag + "$" + body + "$" + tag + "$";
    TagIs(tag);
    BodyIs(tag, body);
    assert Ascii(body);
    QuotedThenMore(tag, body, rest);
  }

  lemma QuotedThenMore(tag: string, body: string, rest: string)
    requires IsTag(tag) && IsBody(tag, body) && Ascii(body)
    ensures Statements(Lex(Quoted(tag, body) + ";" + rest)) == [Quoted(tag, body)] + Statements(Lex(rest))
  {
    hide *;
    var t := Dollar(tag, body, true, "");
    LexQuoted(tag, body, rest);
    KeptOfQuoted(tag, body, "");
    QuotedIsTerminated(t);
    TerminatedIsTrimmed(t);
    TokenThenMore(t, Lex(rest));
  }

  lemma QuotedIsTerminated(t: Token)
    ensures t.Dollar? && t.closed ==> Terminated(t) && !t.Separator?
  {
  }

  lemma LexQuoted(tag: string, body: string, rest: string)
    requires IsTag(tag) && IsBody(tag, body) && Ascii(body)
    ensures Lex(Quoted(tag, body) + ";" + rest) == [Dollar(tag, body, true, ""), Separator] + Lex(rest)
  {
    hide *;
    var q, more, t := Quoted(tag, body), ";" + rest, Dollar(tag, body, true, "");
    ReadsOfQuoted(tag, body, more);
    assert q + more == q + ";" + rest;
    assert Overrun(body, more) == "";
    assert more[0..] == more;
    LexSemicolon(rest);
    assert [t] + ([Separator] + Lex(rest)) == [t, Separator] + Lex(rest);
  }

  lemma TokenThenMore(t: Token, toks: seq<Token>)
    requires !t.Separator? && Kept(t) != "" && Trimmed(Kept(t))
    ensures Statements([t, Separator] + toks) == [Kept(t)] + Statements(toks)
  {
    hide TrimSpace, Kept, Statements, Ahead;
    var all := [t, Separator] + toks;
    StatementsAhead(all);
    StatementsAhead(toks);
    AheadStep("", all);
    assert all[1..] == [Separator] + toks && ([Separator] + toks)[1..] == toks;
    assert "" + Kept(t) == Kept(t);
    AheadStep(Kept(t), [Separator] + toks);
    TrimTrimmed(Kept(t));
  }

  /** A dollar sign before anything but a letter, an underscore or another one opens nothing; so a
      number between dollar signs does not. */
  lemma DollarOpensNothing(c: char, rest: string)
    requires !('A' <= c <= 'Z') && !('a' <= c <= 'z') && c != '_' && c != '$'
    ensures Lex("$" + [c] + rest) == [Plain('$')] + Lex([c] + rest)
  {
    hide TagLength;
    var s := "$" + [c] + rest;
    assert s[1] == c;
    assert DollarTag(s).None?;
    assert Next(s) == Plain('$');
    assert Rest(s) == [c] + rest;
  }

  /** Nor does one whose tag is broken off by another character, or by the end of the script. */
  lemma BrokenTagOpensNothing(tag: string, rest: string)
    requires forall i :: 0 <= i < |tag| ==>
               'A' <= tag[i] <= 'Z' || 'a' <= tag[i] <= 'z' || '0' <= tag[i] <= '9' || tag[i] == '_'
    requires tag != ""
    requires rest != "" ==> rest[0] != '$' && !('A' <= rest[0] <= 'Z') && !('a' <= rest[0] <= 'z')
                            && !('0' <= rest[0] <= '9') && rest[0] != '_'
    ensures Lex("$" + tag + rest) == [Plain('$')] + Lex(tag + rest)
  {
    var s := "$" + tag + rest;
    assert s[1..] == tag + rest;
    TagLengthOfBroken(tag, rest);
    assert DollarTag(s).None? by { hide TagLength; }
    hide DollarTag;
    assert Next(s) == Plain('$');
    assert Rest(s) == tag + rest;
  }

  lemma {:induction false} TagLengthOfBroken(tag: string, rest: string)
    requires forall i :: 0 <= i < |tag| ==> IsTagChar(tag[i])
    requires rest != "" ==> rest[0] != '$' && !IsTagChar(rest[0])
    ensures TagLength(tag + rest).None?
  {
    if tag == "" {
      assert tag + rest == rest;
    } else {
      assert (tag + rest)[1..] == tag[1..] + rest;
      TagLengthOfBroken(tag[1..], rest);
    }
  }
}
