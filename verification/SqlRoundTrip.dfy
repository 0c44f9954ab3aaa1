/** What splitting a script keeps, and when splitting can be undone by joining. */
module SqlRoundTrip {
  import opened Common
  import opened Text
  import opened SqlLexer
  import opened SqlSplitter

  // ----- nothing but comments, separators and overruns is dropped -----

  function KeptText(toks: seq<Token>): string {
    if toks == [] then "" else Kept(toks[0]) + KeptText(toks[1..])
  }

  function SeparatorCount(toks: seq<Token>): nat {
    if toks == [] then 0 else (if toks[0].Separator? then 1 else 0) + SeparatorCount(toks[1..])
  }

  /** The pieces between separators hold all the kept text, in order. */
  lemma {:induction false} PiecesHoldAllKeptText(toks: seq<Token>)
    ensures Flatten(Pieces(toks)) == KeptText(toks)
    ensures |Pieces(toks)| == 1 + SeparatorCount(toks)
  {
    hide Kept;
    if toks == [] {
      assert Flatten([""]) == "" + Flatten([]);
    } else {
      var tail := Pieces(toks[1..]);
      PiecesHoldAllKeptText(toks[1..]);
      if toks[0].Separator? {
        assert Kept(toks[0]) == "" by { SeparatorKeepsNothing(); }
        assert ([""] + tail)[1..] == tail;
      } else {
        assert Kept(toks[0]) + tail[0] + Flatten(tail[1..]) == Kept(toks[0]) + (tail[0] + Flatten(tail[1..]));
      }
    }
  }

  lemma SeparatorKeepsNothing()
    ensures Kept(Separator) == ""
  {
  }

  // ----- literals stay whole -----

  /** A literal that was closed: it begins and ends with its delimiter. */
  predicate Terminated(t: Token) {
    match t
    case Literal(text) => |text| >= 2 && text[0] == '\'' && text[|text| - 1] == '\''
    case Dollar(_, _, closed, _) => closed
    case _ => false
  }

  lemma TerminatedIsTrimmed(t: Token)
    requires Terminated(t)
    ensures Kept(t) != "" && Trimmed(Kept(t))
  {
    if t.Dollar? {
      var text := Fence(t.tag) + t.body + Fence(t.tag);
      assert text[0] == '$' && text[|text| - 1] == Fence(t.tag)[|t.tag| + 1] == '$';
    }
  }

  lemma {:induction false} TokenLiesInOnePiece(toks: seq<Token>, j: nat)
      returns (p: nat, before: string, after: string)
    requires j < |toks| && !toks[j].Separator?
    ensures p < |Pieces(toks)| && Pieces(toks)[p] == before + Kept(toks[j]) + after
  {
    hide Kept;
    var tail := Pieces(toks[1..]);
    if j == 0 {
      p, before, after := 0, "", tail[0];
      assert Kept(toks[0]) + tail[0] == "" + Kept(toks[0]) + tail[0];
    } else {
      p, before, after := TokenLiesInOnePiece(toks[1..], j - 1);
      assert toks[1..][j - 1] == toks[j];
      if toks[0].Separator? {
        p := p + 1;
      } else if p == 0 {
        assert Kept(toks[0]) + (before + Kept(toks[j]) + after) == Kept(toks[0]) + before + Kept(toks[j]) + after;
        before := Kept(toks[0]) + before;
      }
    }
  }

  lemma {:induction false} NonBlankKeeps(pieces: seq<string>, p: nat)
    requires p < |pieces| && TrimSpace(pieces[p]) != ""
    ensures TrimSpace(pieces[p]) in NonBlank(pieces)
  {
    if p > 0 {
      assert pieces[1..][p - 1] == pieces[p];
      NonBlankKeeps(pieces[1..], p - 1);
    }
  }

  /** No literal that the scanner reads to its end is cut: it lies whole inside one of the
      statements. */
  lemma TokensStayWhole(sql: string, j: nat)
    requires j < |Lex(sql)| && Terminated(Lex(sql)[j])
    ensures exists stmt :: stmt in Statements(Lex(sql)) && Contains(stmt, Kept(Lex(sql)[j]))
  {
    var t := Lex(sql)[j];
    TerminatedIsTrimmed(t);
    var p, before, after := TokenLiesInOnePiece(Lex(sql), j);
    TrimKeepsWord(Pieces(Lex(sql))[p], before, Kept(t), after);
    NonBlankKeeps(Pieces(Lex(sql)), p);
  }

  /** No terminated literal of the intended grammar is cut, if dollar-quoted bodies are ASCII. */
  lemma LiteralsStayWhole(sql: string, j: nat)
    requires DollarBodiesAscii(IdealLex(sql)) && j < |IdealLex(sql)| && Terminated(IdealLex(sql)[j])
    ensures exists stmt :: stmt in Statements(Lex(sql)) && Contains(stmt, Kept(IdealLex(sql)[j]))
  {
    hide Lex, IdealLex, Statements, DollarBodiesAscii;
    ReadAsIntendedIffAscii(sql);
    TokensStayWhole(sql, j);
  }

  // ----- the overrun -----

  /** A script whose dollar-quoted bodies are ASCII splits as the grammar intends. */
  lemma SplitsAsIntended(sql: string)
    requires DollarBodiesAscii(IdealLex(sql))
    ensures Statements(Lex(sql)) == Statements(IdealLex(sql))
  {
    hide Lex, IdealLex, Statements, DollarBodiesAscii;
    ReadAsIntendedIffAscii(sql);
  }

  /** One non-ASCII character in a dollar-quoted body swallows the separator behind the literal,
      and two statements become one. */
  lemma OverrunMergesStatements()
    ensures Statements(Lex("$$\U{00E9}$$;a")) == ["$$\U{00E9}$$a"]
    ensures Statements(IdealLex("$$\U{00E9}$$;a")) == ["$$\U{00E9}$$", "a"]
  {
    hide Lex, IdealLex, Statements;
    var quote := Dollar("", "\U{00E9}", true, "");
    LexOverrunExample();
    StatementsOfTwo(quote.(lost := ";"), "$$\U{00E9}$$", 'a');
    StatementsOfThree(quote, "$$\U{00E9}$$", 'a');
    assert "$$\U{00E9}$$" + ['a'] == "$$\U{00E9}$$a";
  }

  lemma LexOverrunExample()
    ensures Lex("$$\U{00E9}$$;a") == [Dollar("", "\U{00E9}", true, ";"), Plain('a')]
    ensures IdealLex("$$\U{00E9}$$;a") == [Dollar("", "\U{00E9}", true, ""), Separator, Plain('a')]
  {
    hide Next, DollarTag, DollarToken;
    var sql := "$$\U{00E9}$$;a";
    var t := Dollar("", "\U{00E9}", true, ";");
    NextOfOverrunExample();
    assert Kept(t) == "$$\U{00E9}$$" && Source(t) == "$$\U{00E9}$$;";
    assert Rest(sql) == "a";
    NextOfPlainExample();
    assert Lex("a") == [Plain('a')];
    var u := WithoutOverrun(t);
    assert Source(u) == "$$\U{00E9}$$";
    assert sql[|Source(u)|..] == ";a" && ";a"[1..] == "a";
    assert IdealLex("a") == [Plain('a')];
    assert IdealLex(";a") == [Separator] + IdealLex("a");
  }

  lemma NextOfPlainExample()
    ensures Next("a") == Plain('a') && Next(";a") == Separator && Rest("a") == "" && "a"[1..] == ""
  {
  }

  lemma StatementsOfTwo(t: Token, text: string, c: char)
    requires !t.Separator? && Kept(t) == text && text != "" && Trimmed(text) && !IsSpace(c)
    ensures Statements([t, Plain(c)]) == [text + [c]]
  {
    hide IsSpace, Kept, TrimSpace;
    AheadStep("", [t, Plain(c)]);
    AheadStep(text, [Plain(c)]);
    AheadStep(text + [c], []);
    ExtendNothing(Pieces([t, Plain(c)]));
    KeptCharacter(c);
    assert [t, Plain(c)][1..] == [Plain(c)] && "" + text == text;
    TrimTrimmed(text + [c]);
  }

  lemma StatementsOfThree(t: Token, text: string, c: char)
    requires !t.Separator? && Kept(t) == text && text != "" && Trimmed(text) && !IsSpace(c)
    ensures Statements([t, Separator, Plain(c)]) == [text, [c]]
  {
    hide IsSpace, Kept, TrimSpace;
    var toks := [t, Separator, Plain(c)];
    AheadStep("", toks);
    AheadStep(text, [Separator, Plain(c)]);
    AheadStep("", [Plain(c)]);
    AheadStep([c], []);
    ExtendNothing(Pieces(toks));
    KeptCharacter(c);
    assert toks[1..] == [Separator, Plain(c)] && toks[1..][1..] == [Plain(c)];
    assert "" + text == text && "" + [c] == [c];
    TrimTrimmed(text);
    TrimTrimmed([c]);
  }

  lemma KeptCharacter(c: char)
    ensures Kept(Plain(c)) == [c]
  {
  }

  lemma NextOfOverrunExample()
    ensures Next("$$\U{00E9}$$;a") == Dollar("", "\U{00E9}", true, ";")
  {
    hide Index, Overrun;
    var sql := "$$\U{00E9}$$;a";
    assert DollarTag(sql) == Some("");
    DollarTokenIsNext(sql, "");
    assert Fence("") == "$$";
    var rest := sql[2..];
    assert rest == "\U{00E9}$$;a";
    IndexExample();
    assert rest[..1] == "\U{00E9}" && rest[3..] == ";a";
  }

  lemma IndexExample()
    ensures Index("\U{00E9}$$;a", "$$") == Some(1)
    ensures Overrun("\U{00E9}", ";a") == ";"
  {
    var rest := "\U{00E9}$$;a";
    assert rest[0..2][0] == '\U{00E9}' && "$$"[0] == '$';
    assert !OccursAt(rest, "$$", 0) && rest[1..3] == "$$" && OccursAt(rest, "$$", 1);
    assert "\U{00E9}"[1..] == "" && ByteLength("\U{00E9}") == 2;
    assert ";a"[..1] == ";";
  }

  // ----- tokens do not look past a neutral character -----

  /** A token that appears in a statement exactly as it was written. */
  predicate Verbatim(t: Token) {
    match t
    case Literal(_) => true
    case Plain(_) => true
    case Dollar(_, _, _, lost) => lost == ""
    case _ => false
  }

  predicate AllVerbatim(toks: seq<Token>) {
    forall i :: 0 <= i < |toks| ==> Verbatim(toks[i])
  }

  /** Characters that cannot continue a token that is complete. */
  predicate Neutral(c: char) {
    c == ';' || IsSpace(c)
  }

  predicate Boundary(s: string) {
    s == "" || Neutral(s[0])
  }

  lemma {:induction false} LiteralTailStable(p: string, t: string, u: string)
    requires t != "" && Boundary(t) && Boundary(u)
    requires LiteralTail(p + t) <= |p|
    ensures LiteralTail(p + u) == LiteralTail(p + t)
  {
    hide IsSpace;
    NeutralIsPlain(t);
    NeutralIsPlain(u);
    if p != "" {
      var n := if p[0] == '\'' && |p| > 1 && p[1] == '\'' then 2 else 1;
      DropOfConcat(p, t, n);
      DropOfConcat(p, u, n);
      LiteralTailStep(p + t, n);
      LiteralTailStep(p + u, n);
      if n == 2 || p[0] != '\'' {
        LiteralTailStable(p[n..], t, u);
      }
    }
  }

  lemma NeutralIsPlain(s: string)
    requires Boundary(s)
    ensures s != "" ==> s[0] != '\'' && s[0] != '-' && s[0] != '/' && s[0] != '*' && s[0] != '$' && !IsTagChar(s[0])
  {
  }

  lemma {:induction false} TagLengthStable(p: string, t: string, u: string)
    requires Boundary(t) && Boundary(u)
    ensures TagLength(p + t) == TagLength(p + u)
  {
    hide IsSpace;
    NeutralIsPlain(t);
    NeutralIsPlain(u);
    if p == "" {
      assert p + t == t && p + u == u;
    } else {
      DropOfConcat(p, t, 1);
      DropOfConcat(p, u, 1);
      TagLengthStable(p[1..], t, u);
    }
  }

  lemma DollarTagStable(p: string, t: string, u: string)
    requires p != "" && p != "$$" && Boundary(t) && Boundary(u)
    ensures DollarTag(p + t) == DollarTag(p + u)
  {
    hide IsSpace, TagLength;
    NeutralIsPlain(t);
    NeutralIsPlain(u);
    if p[0] == '$' && |p| >= 2 {
      DropOfConcat(p, t, 1);
      DropOfConcat(p, u, 1);
      TagLengthStable(p[1..], t, u);
      TagStaysInside(p[1..], t);
      var r := TagLength(p[1..] + t);
      if r.Some? {
        SliceOfConcat(p, t, 1, 1 + r.value);
        SliceOfConcat(p, u, 1, 1 + r.value);
      }
      assert |p| == 2 ==> r.None?;
    }
  }

  lemma {:induction false} TagStaysInside(p: string, t: string)
    requires Boundary(t)
    ensures TagLength(p + t).Some? ==> TagLength(p + t).value < |p|
    ensures |p| == 1 && p[0] != '$' ==> TagLength(p + t).None?
  {
    hide IsSpace;
    NeutralIsPlain(t);
    if p == "" {
      assert p + t == t;
    } else {
      assert (p + t)[1..] == p[1..] + t;
      TagStaysInside(p[1..], t);
      if |p| == 1 { assert p[1..] + t == t; }
    }
  }

  lemma IndexStable(p: string, t: string, u: string, part: string)
    requires Index(p + t, part).Some? && Index(p + t, part).value + |part| <= |p|
    ensures Index(p + u, part) == Index(p + t, part)
  {
    hide Index, OccursAt;
    forall j: nat | j + |part| <= |p|
      ensures OccursAt(p + t, part, j) == OccursAt(p + u, part, j)
    {
      OccursInside(p, t, part, j);
      OccursInside(p, u, part, j);
    }
  }

  lemma OccursInside(p: string, t: string, part: string, j: nat)
    requires j + |part| <= |p|
    ensures OccursAt(p + t, part, j) == OccursAt(p, part, j)
  {
    SliceOfConcat(p, t, j, j + |part|);
  }

  /** A dollar quote that is closed within `q`, told from behind its opening fence. */
  lemma QuoteStable(q: string, t: string, u: string, fence: string, k: nat)
    requires Index(q + t, fence) == Some(k) && k + |fence| <= |q|
    ensures Index(q + u, fence) == Some(k) && (q + t)[..k] == (q + u)[..k]
  {
    hide Index;
    IndexStable(q, t, u, fence);
    SliceOfConcat(q, t, 0, k);
    SliceOfConcat(q, u, 0, k);
  }

  lemma ClosedWithin(s: string, tag: string, m: nat)
    requires Fence(tag) <= s && m < |s|
    requires var tok := DollarToken(s, tag); |Source(tok)| <= m && tok.lost == ""
    ensures var k := |DollarToken(s, tag).body|;
            && Index(s[|Fence(tag)|..], Fence(tag)) == Some(k) && DollarToken(s, tag).closed
            && |Fence(tag)| + k + |Fence(tag)| <= m
            && Ascii(DollarToken(s, tag).body)
  {
    hide Index, Fence, Overrun, Ascii;
  }

  lemma DollarTokenStable(p: string, t: string, u: string, tag: string)
    requires t != "" && Fence(tag) <= p && Fence(tag) <= p + t && Fence(tag) <= p + u
    requires |Source(DollarToken(p + t, tag))| <= |p| && DollarToken(p + t, tag).lost == ""
    ensures DollarToken(p + u, tag) == DollarToken(p + t, tag)
  {
    hide Index, Fence, Ascii, Kept, Source, Overrun;
    var fence := Fence(tag);
    var tok := DollarToken(p + t, tag);
    var q := p[|fence|..];
    DropOfConcat(p, t, |fence|);
    DropOfConcat(p, u, |fence|);
    ClosedWithin(p + t, tag, |p|);
    QuoteStable(q, t, u, fence, |tok.body|);
  }

  /** A complete token at the start of `p` is read the same whatever neutral text follows `p`. */
  lemma NextStable(p: string, t: string, u: string)
    requires p != "" && t != "" && Boundary(t) && Boundary(u)
    requires |Source(Next(p + t))| <= |p| && Verbatim(Next(p + t))
    ensures Next(p + u) == Next(p + t)
  {
    hide IsSpace, LiteralTail, LineTail, BlockTail, DollarTag, DollarToken, Neutral, Index, Fence;
    NeutralIsPlain(t);
    NeutralIsPlain(u);
    var tok := Next(p + t);
    assert (p + t)[0] == p[0] == (p + u)[0];
    if p[0] == '\'' {
      LiteralNextStable(p, t, u);
    } else if p[0] == '$' {
      DollarNextStable(p, t, u);
    } else {
      DollarTagNeedsDollar(p + t);
      DollarTagNeedsDollar(p + u);
    }
  }

  lemma LiteralNextStable(p: string, t: string, u: string)
    requires p != "" && t != "" && Boundary(t) && Boundary(u) && p[0] == '\''
    requires |Source(Next(p + t))| <= |p|
    ensures Next(p + u) == Next(p + t)
  {
    hide LiteralTail, DollarToken, DollarTag, Boundary, LineTail, BlockTail;
    DropOfConcat(p, t, 1);
    DropOfConcat(p, u, 1);
    LiteralTailStable(p[1..], t, u);
    var k := 1 + LiteralTail(p[1..] + t);
    SliceOfConcat(p, t, 0, k);
    SliceOfConcat(p, u, 0, k);
  }

  lemma DollarTagNeedsDollar(s: string)
    requires s != "" && s[0] != '$'
    ensures DollarTag(s).None?
  {
  }

  lemma DollarNextStable(p: string, t: string, u: string)
    requires p != "" && t != "" && Boundary(t) && Boundary(u) && p[0] == '$'
    requires |Source(Next(p + t))| <= |p| && Verbatim(Next(p + t))
    ensures Next(p + u) == Next(p + t)
  {
    hide IsSpace, LiteralTail, LineTail, BlockTail, DollarTag, DollarToken, Neutral, Index;
    if p == "$$" {
      BareFenceIsLong(t);
    } else {
      DollarTagStable(p, t, u);
      if DollarTag(p + t).Some? {
        var tag := DollarTag(p + t).value;
        assert |Fence(tag)| <= |Source(DollarToken(p + t, tag))| by { DollarTokenHasFence(p + t, tag); }
        assert Fence(tag) <= p;
        DollarTokenStable(p, t, u, tag);
      }
    }
  }

  lemma DollarTokenHasFence(s: string, tag: string)
    requires Fence(tag) <= s
    ensures |Source(DollarToken(s, tag))| >= |Fence(tag)|
  {
  }

  lemma BareFenceIsLong(t: string)
    requires t != "" && Boundary(t)
    ensures |Source(Next("$$" + t))| > 2
  {
    hide IsSpace, Index;
    var s := "$$" + t;
    assert DollarTag(s) == Some("");
    DollarTokenIsNext(s, "");
    var tok := DollarToken(s, "");
    assert Fence("") == "$$";
    assert |Kept(tok)| > 2;
  }

  /** If `p` ends between two tokens and all its tokens are verbatim, then `p` is read the same
      before any other neutral text, and at the end of the script. */
  lemma {:induction false} LexStable(p: string, t: string, u: string, n: nat)
    requires t != "" && Boundary(t) && Boundary(u)
    requires n <= |Lex(p + t)| && Sources(Lex(p + t)[..n]) == p && AllVerbatim(Lex(p + t)[..n])
    ensures Lex(p + u) == Lex(p + t)[..n] + Lex(u)
  {
    hide Next, Source, Boundary;
    var s, toks := p + t, Lex(p + t);
    if n == 0 {
      assert p + u == u && toks[..0] == [];
    } else {
      var tok := Next(s);
      var q := p[|Source(tok)|..];
      FirstOfMany(s, n);
      assert Source(tok) + Sources(Lex(Rest(s))[..n - 1]) == p;
      DropOfConcat(p, t, |Source(tok)|);
      DropOfConcat(p, u, |Source(tok)|);
      TailVerbatim(toks[..n]);
      LexStable(q, t, u, n - 1);
      NextStable(p, t, u);
      assert [tok] + (Lex(q + t)[..n - 1] + Lex(u)) == toks[..n] + Lex(u);
    }
  }

  lemma FirstOfMany(s: string, n: nat)
    requires 0 < n <= |Lex(s)|
    ensures Lex(s)[..n] == [Next(s)] + Lex(Rest(s))[..n - 1]
    ensures Lex(s)[..n][1..] == Lex(Rest(s))[..n - 1]
  {
    hide Next, Rest;
  }

  lemma TailVerbatim(toks: seq<Token>)
    requires AllVerbatim(toks) && toks != []
    ensures Verbatim(toks[0]) && AllVerbatim(toks[1..])
  {
  }

  // ----- joining and splitting again -----

  /** A statement whose end is also the end of its last token: a semicolon after it separates. */
  predicate Closed(p: string) {
    AllVerbatim(Lex(p)) && Lex(p + ";") == Lex(p) + [Separator]
  }

  /** A closed statement is read the same at the head of any script. */
  lemma ClosedReadsAlone(p: string, u: string)
    requires Closed(p) && Boundary(u)
    ensures Lex(p + u) == Lex(p) + Lex(u)
  {
    hide Lex;
    LexCoversScript(p);
    var n := |Lex(p)|;
    assert Lex(p + ";")[..n] == Lex(p);
    LexStable(p, ";", u, n);
  }

  lemma LexSemicolon(s: string)
    ensures Lex(";" + s) == [Separator] + Lex(s)
  {
    var t := ";" + s;
    assert Next(t) == Separator;
    assert Rest(t) == s;
  }

  lemma {:induction false} PiecesOfVerbatim(a: seq<Token>, b: seq<Token>)
    requires AllVerbatim(a)
    ensures Pieces(a + b) == Extend(Sources(a), Pieces(b))
  {
    hide Source, Kept;
    if a == [] {
      assert a + b == b;
      ExtendNothing(Pieces(b));
    } else {
      TailVerbatim(a);
      VerbatimSource(a[0]);
      PiecesOfVerbatim(a[1..], b);
      assert (a + b)[1..] == a[1..] + b;
      ExtendTwice(Kept(a[0]), Sources(a[1..]), Pieces(b));
    }
  }

  lemma VerbatimSource(t: Token)
    requires Verbatim(t)
    ensures Kept(t) == Source(t)
  {
  }

  lemma StatementsOfOne(p: string)
    requires AllVerbatim(Lex(p))
    ensures Statements(Lex(p)) == Emit(p)
  {
    hide Lex, Emit;
    LexCoversScript(p);
    PiecesOfVerbatim(Lex(p), []);
    assert Lex(p) + [] == Lex(p);
    assert p + "" == p;
    assert NonBlank([p]) == Emit(p) + NonBlank([]);
  }

  lemma StatementsOfClosed(p: string, s: string)
    requires Closed(p)
    ensures Statements(Lex(p + ";" + s)) == Emit(p) + Statements(Lex(s))
  {
    hide Lex, Emit, NonBlank, AllVerbatim;
    ClosedReadsAlone(p, ";" + s);
    LexSemicolon(s);
    assert p + (";" + s) == p + ";" + s;
    LexCoversScript(p);
    PiecesOfVerbatim(Lex(p), [Separator] + Lex(s));
    PiecesAfterSeparator(Lex(s));
    assert Extend(p, [""] + Pieces(Lex(s))) == [p] + Pieces(Lex(s)) by { assert p + "" == p; }
    NonBlankCons(p, Pieces(Lex(s)));
  }

  lemma PiecesAfterSeparator(toks: seq<Token>)
    ensures Pieces([Separator] + toks) == [""] + Pieces(toks)
  {
    assert ([Separator] + toks)[1..] == toks;
  }

  lemma NonBlankCons(p: string, pieces: seq<string>)
    ensures NonBlank([p] + pieces) == Emit(p) + NonBlank(pieces)
  {
    assert ([p] + pieces)[1..] == pieces;
  }

  /** Trimmed, non-empty, comment-free statements without a top-level semicolon, each closed
      except perhaps the last. */
  predicate Splittable(stmts: seq<string>) {
    && (forall i :: 0 <= i < |stmts| ==> stmts[i] != "" && Trimmed(stmts[i]) && AllVerbatim(Lex(stmts[i])))
    && forall i :: 0 <= i < |stmts| - 1 ==> Closed(stmts[i])
  }

  lemma SplittableTail(stmts: seq<string>)
    requires Splittable(stmts) && stmts != []
    ensures Splittable(stmts[1..])
  {
    hide Closed, AllVerbatim, Trimmed, Lex;
  }

  /** Round trip: a list of statements comes back unchanged from splitting its join. */
  lemma {:induction false} JoinThenSplit(stmts: seq<string>)
    requires Splittable(stmts)
    ensures Statements(Lex(Join(stmts, ";"))) == stmts
  {
    hide Lex, Closed, AllVerbatim, Trimmed, Statements, TrimSpace;
    if stmts == [] {
      EmptyScript();
    } else {
      var s := stmts[0];
      TrimTrimmed(s);
      SplittableTail(stmts);
      if |stmts| == 1 {
        StatementsOfOne(s);
      } else {
        JoinThenSplit(stmts[1..]);
        StatementsOfClosed(s, Join(stmts[1..], ";"));
        assert stmts == [s] + stmts[1..];
      }
    }
  }

  lemma EmptyScript()
    ensures Statements(Lex("")) == []
  {
    assert NonBlank([""]) == Emit("") + NonBlank([]);
  }
}
