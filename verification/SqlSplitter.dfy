/** The script splitter of the migration runner, proved against the lexical grammar. */
module SqlSplitter {
  import opened Common
  import opened Text
  import opened SqlLexer

  // ----- the meaning of a script -----

  /** The kept text between top-level semicolons, in order. Comments vanish. */
  function Pieces(toks: seq<Token>): (r: seq<string>)
    ensures r != []
  {
    if toks == [] then [""]
    else if toks[0].Separator? then [""] + Pieces(toks[1..])
    else Extend(Kept(toks[0]), Pieces(toks[1..]))
  }

  function Extend(prefix: string, pieces: seq<string>): (r: seq<string>)
    requires pieces != []
    ensures r != []
  {
    [prefix + pieces[0]] + pieces[1..]
  }

  /** The pieces, trimmed, without the blank ones. */
  function NonBlank(pieces: seq<string>): seq<string> {
    if pieces == [] then [] else Emit(pieces[0]) + NonBlank(pieces[1..])
  }

  function Emit(piece: string): seq<string> {
    if TrimSpace(piece) != "" then [TrimSpace(piece)] else []
  }

  /** The statements a list of tokens stands for. */
  function Statements(toks: seq<Token>): seq<string> {
    NonBlank(Pieces(toks))
  }

  // ----- the scanner -----

  /** The statements still to come when the scanner has gathered `cur` and `toks` lie ahead. */
  function Ahead(cur: string, toks: seq<Token>): seq<string> {
    NonBlank(Extend(cur, Pieces(toks)))
  }

  lemma ExtendNothing(pieces: seq<string>)
    requires pieces != []
    ensures Extend("", pieces) == pieces
  {
    assert "" + pieces[0] == pieces[0];
  }

  lemma ExtendTwice(a: string, b: string, pieces: seq<string>)
    requires pieces != []
    ensures Extend(a, Extend(b, pieces)) == Extend(a + b, pieces)
  {
    assert a + (b + pieces[0]) == a + b + pieces[0];
  }

  lemma AheadStep(cur: string, toks: seq<Token>)
    ensures toks == [] ==> Ahead(cur, toks) == Emit(cur)
    ensures toks != [] && toks[0].Separator? ==> Ahead(cur, toks) == Emit(cur) + Ahead("", toks[1..])
    ensures toks != [] && !toks[0].Separator? ==> Ahead(cur, toks) == Ahead(cur + Kept(toks[0]), toks[1..])
  {
    assert cur + "" == cur;
    if toks == [] {
      assert Extend(cur, Pieces(toks)) == [cur];
      assert NonBlank([cur]) == Emit(cur) + NonBlank([]);
    } else {
      var tail := Pieces(toks[1..]);
      if toks[0].Separator? {
        ExtendNothing(tail);
        assert Extend(cur, Pieces(toks)) == [cur] + tail;
      } else {
        ExtendTwice(cur, Kept(toks[0]), tail);
      }
    }
  }

  /** What remains of the kept text once the next token has been read. */
  lemma ReadToken(cur: string, s: string)
    requires s != ""
    ensures !Next(s).Separator? ==> Ahead(cur, Lex(s)) == Ahead(cur + Kept(Next(s)), Lex(Rest(s)))
    ensures Next(s).Separator? ==> Ahead(cur, Lex(s)) == Emit(cur) + Ahead("", Lex(Rest(s)))
  {
    hide Ahead, Next, Rest, Emit;
    AheadStep(cur, Lex(s));
    assert Lex(s)[1..] == Lex(Rest(s));
  }

  datatype Mode = Normal | InLineComment | InBlockComment | InString | InDollarQuote(tag: string)

  /** The statements still to come when the scanner stands in `mode` before `s`. */
  function Resume(mode: Mode, cur: string, s: string): seq<string> {
    match mode
    case Normal => Ahead(cur, Lex(s))
    case InLineComment => Ahead(cur, Lex(s[LineTail(s)..]))
    case InBlockComment => Ahead(cur, Lex(s[BlockTail(s)..]))
    case InString => Ahead(cur + s[..LiteralTail(s)], Lex(s[LiteralTail(s)..]))
    case InDollarQuote(tag) =>
      match QuoteEnd(s, tag)
      case None => Emit(cur + s)
      case Some((text, rest)) => Ahead(cur + text, Lex(rest))
  }

  /** From inside a dollar quote: the text up to and with the closing fence, and where reading
      goes on. */
  function QuoteEnd(s: string, tag: string): Option<(string, string)> {
    match Index(s, Fence(tag))
    case None => None
    case Some(k) =>
      var after := s[k + |Fence(tag)|..];
      Some((s[..k + |Fence(tag)|], after[|Overrun(s[..k], after)|..]))
  }

  function Remaining(s: string, i: nat): string {
    if i <= |s| then s[i..] else ""
  }

  lemma EnterLiteral(cur: string, sql: string, i: nat)
    requires i < |sql| && sql[i] == '\''
    ensures Resume(Normal, cur, Remaining(sql, i)) == Resume(InString, cur + [sql[i]], Remaining(sql, i + 1))
  {
    hide Ahead, Lex, Emit;
    var s, inner := Remaining(sql, i), Remaining(sql, i + 1);
    var k := LiteralTail(inner);
    ReadToken(cur, s);
    assert inner == s[1..];
    assert Kept(Next(s)) == [s[0]] + inner[..k];
    assert cur + ([s[0]] + inner[..k]) == cur + [s[0]] + inner[..k];
    assert Rest(s) == inner[k..];
  }

  lemma EnterComment(cur: string, sql: string, i: nat, mode: Mode)
    requires i + 1 < |sql|
    requires if mode == InLineComment then sql[i] == '-' && sql[i + 1] == '-'
             else mode == InBlockComment && sql[i] == '/' && sql[i + 1] == '*'
    ensures Resume(Normal, cur, Remaining(sql, i)) == Resume(mode, cur, Remaining(sql, i + 2))
  {
    hide Ahead, Lex, Emit;
    var s, inner := Remaining(sql, i), Remaining(sql, i + 2);
    ReadToken(cur, s);
    assert cur + "" == cur;
    assert inner == s[2..];
    assert Rest(s) == inner[if mode == InLineComment then LineTail(inner) else BlockTail(inner)..];
  }

  lemma InsideLineComment(cur: string, sql: string, i: nat)
    requires i < |sql|
    ensures Resume(InLineComment, cur, Remaining(sql, i)) ==
            Resume(if sql[i] == '\n' then Normal else InLineComment, cur, Remaining(sql, i + 1))
  {
    hide Ahead, Lex;
    var s, next := Remaining(sql, i), Remaining(sql, i + 1);
    assert next == s[1..];
    assert s[LineTail(s)..] == next[LineTail(s) - 1..];
  }

  lemma InsideBlockComment(cur: string, sql: string, i: nat, closes: bool)
    requires i < |sql| && closes == (sql[i] == '*' && i + 1 < |sql| && sql[i + 1] == '/')
    ensures Resume(InBlockComment, cur, Remaining(sql, i)) ==
            if closes then Resume(Normal, cur, Remaining(sql, i + 2))
            else Resume(InBlockComment, cur, Remaining(sql, i + 1))
  {
    hide Ahead, Lex;
    var s, next := Remaining(sql, i), Remaining(sql, i + 1);
    assert next == s[1..];
    if !closes {
      assert s[BlockTail(s)..] == next[BlockTail(s) - 1..];
    }
  }

  lemma InsideLiteral(cur: string, sql: string, i: nat, doubled: bool)
    requires i < |sql| && doubled == (sql[i] == '\'' && i + 1 < |sql| && sql[i + 1] == '\'')
    ensures Resume(InString, cur, Remaining(sql, i)) ==
            if doubled then Resume(InString, cur + [sql[i]] + [sql[i + 1]], Remaining(sql, i + 2))
            else Resume(if sql[i] == '\'' then Normal else InString, cur + [sql[i]], Remaining(sql, i + 1))
  {
    hide Ahead, Lex, LiteralTail, LineTail, BlockTail, QuoteEnd;
    var n := if doubled then 2 else 1;
    var s, next := Remaining(sql, i), Remaining(sql, i + n);
    var k := LiteralTail(s);
    assert next == s[n..];
    LiteralTailStep(s, n);
    assert s[..1] == [sql[i]] && (doubled ==> s[..2] == [sql[i]] + [sql[i + 1]]);
    assert cur + s[..n] == if doubled then cur + [sql[i]] + [sql[i + 1]] else cur + [sql[i]];
    CutAfter(cur, s, n, k);
  }

  lemma CutAfter(cur: string, s: string, n: nat, k: nat)
    requires n <= k <= |s|
    ensures cur + s[..k] == cur + s[..n] + s[n..][..k - n] && s[k..] == s[n..][k - n..]
  {
    assert s[..k] == s[..n] + s[n..][..k - n];
  }

  lemma LiteralTailStep(s: string, n: nat)
    requires s != "" && n == if s[0] == '\'' && |s| > 1 && s[1] == '\'' then 2 else 1
    ensures LiteralTail(s) == if s[0] == '\'' && n == 1 then 1 else n + LiteralTail(s[n..])
  {
  }

  /** What a dollar quote covers, told from the position after its opening fence. */
  lemma DollarTokenReach(s: string, tag: string, rest: string)
    requires Fence(tag) <= s && rest == s[|tag| + 2..]
    ensures var t := DollarToken(s, tag);
            match QuoteEnd(rest, tag)
            case None => Kept(t) == Fence(tag) + rest && s[|Source(t)|..] == ""
            case Some((text, next)) => Kept(t) == Fence(tag) + text && s[|Source(t)|..] == next
  {
    hide Overrun, Index;
    var fence, t := Fence(tag), DollarToken(s, tag);
    assert s == fence + rest;
    match Index(rest, fence) {
      case None =>
        assert fence + rest + "" == s;
      case Some(k) =>
        FencedBody(s, fence, k);
        assert fence + rest[..k] + fence == fence + rest[..k + |fence|];
        var after := rest[k + |fence|..];
        assert s[|Kept(t)| + |t.lost|..] == after[|t.lost|..];
    }
  }

  lemma DollarTokenIsNext(s: string, tag: string)
    requires DollarTag(s) == Some(tag)
    ensures Next(s) == DollarToken(s, tag)
  {
    hide DollarToken;
  }

  lemma EnterDollarQuote(cur: string, sql: string, i: nat, tag: string)
    requires i < |sql| && DollarTag(sql[i..]) == Some(tag)
    ensures Resume(Normal, cur, Remaining(sql, i)) ==
            Resume(InDollarQuote(tag), cur + Fence(tag), Remaining(sql, i + |tag| + 2))
  {
    hide Ahead, Lex, Next, DollarToken, DollarTag, Overrun, Index, Kept, Source, Emit, Fence, QuoteEnd;
    var s, rest := sql[i..], Remaining(sql, i + |tag| + 2);
    assert rest == s[|tag| + 2..];
    DollarTokenIsNext(s, tag);
    DollarTokenReach(s, tag, rest);
    ReadToken(cur, s);
    match QuoteEnd(rest, tag) {
      case None =>
        assert cur + (Fence(tag) + rest) == cur + Fence(tag) + rest;
        AheadOfNothing(cur + Fence(tag) + rest);
      case Some((text, next)) =>
        assert cur + (Fence(tag) + text) == cur + Fence(tag) + text;
    }
  }

  /** A dollar sign that opens no quote, a semicolon, and every other character. */
  lemma StepOverCharacter(cur: string, sql: string, i: nat)
    requires i < |sql| && sql[i] != '\'' && !(sql[i] == '$' && DollarTag(sql[i..]).Some?)
    requires i + 1 < |sql| ==> !(sql[i] == '-' && sql[i + 1] == '-') && !(sql[i] == '/' && sql[i + 1] == '*')
    ensures Resume(Normal, cur, Remaining(sql, i)) ==
            if sql[i] == ';' then Emit(cur) + Resume(Normal, "", Remaining(sql, i + 1))
            else Resume(Normal, cur + [sql[i]], Remaining(sql, i + 1))
  {
    hide Ahead, Lex, Emit;
    var s := Remaining(sql, i);
    assert s == sql[i..];
    ReadToken(cur, s);
    assert Rest(s) == Remaining(sql, i + 1);
  }

  lemma NotFoundFurtherOn(s: string, part: string)
    requires s != "" && Index(s, part).None?
    ensures Index(s[1..], part).None?
  {
  }

  lemma UnclosedDollarQuote(cur: string, sql: string, i: nat, tag: string)
    requires i < |sql| && Index(sql[i..], Fence(tag)).None?
    ensures Resume(InDollarQuote(tag), cur, Remaining(sql, i)) ==
            Resume(InDollarQuote(tag), cur + [sql[i]], Remaining(sql, i + 1))
  {
    hide Ahead, Lex, Emit, Index, Fence;
    var s, next := sql[i..], Remaining(sql, i + 1);
    assert next == s[1..];
    NotFoundFurtherOn(s, Fence(tag));
    assert cur + s == cur + [sql[i]] + next;
  }

  /** Adding the byte offset of the closing fence to a character index lands past the overrun. */
  lemma CloseDollarQuote(cur: string, sql: string, i: nat, tag: string, k: nat)
    requires i < |sql| && Index(sql[i..], Fence(tag)) == Some(k)
    ensures Resume(InDollarQuote(tag), cur, Remaining(sql, i)) ==
            Resume(Normal, cur + sql[i..][..k + |Fence(tag)|],
                   Remaining(sql, i + ByteLength(sql[i..][..k]) + |Fence(tag)|))
  {
    hide Ahead, Lex, Emit, Index, Fence, ByteLength, QuoteEnd;
    var s := sql[i..];
    assert Remaining(sql, i) == s;
    QuoteEndLands(s, tag, k);
    var jump := ByteLength(s[..k]) + |Fence(tag)|;
    assert Remaining(sql, i + jump) == Remaining(s, jump);
  }

  lemma QuoteEndLands(s: string, tag: string, k: nat)
    requires Index(s, Fence(tag)) == Some(k)
    ensures QuoteEnd(s, tag) ==
            Some((s[..k + |Fence(tag)|], Remaining(s, ByteLength(s[..k]) + |Fence(tag)|)))
  {
    hide ByteLength, Index, Fence;
    ByteLengthExceedsUnlessAscii(s[..k]);
    var after := s[k + |Fence(tag)|..];
    var extra := ByteLength(s[..k]) - k;
    assert |s[..k]| == k;
    if extra <= |after| {
      assert after[extra..] == s[k + |Fence(tag)| + extra..];
    } else {
      assert after[|after|..] == "";
    }
  }

  lemma ResumeAtStart(sql: string)
    ensures Resume(Normal, "", Remaining(sql, 0)) == Statements(Lex(sql))
  {
    assert Remaining(sql, 0) == sql;
    ExtendNothing(Pieces(Lex(sql)));
  }

  lemma AheadOfNothing(cur: string)
    ensures Ahead(cur, Lex("")) == Emit(cur)
  {
    AheadStep(cur, []);
  }

  lemma ResumeAtEnd(mode: Mode, cur: string, sql: string, i: nat)
    requires i >= |sql|
    ensures Resume(mode, cur, Remaining(sql, i)) == Emit(cur)
  {
    hide Ahead, Emit, Lex;
    AheadOfNothing(cur);
    assert Remaining(sql, i) == "" && cur + "" == cur;
    if mode.InDollarQuote? {
      assert Index("", Fence(mode.tag)).None?;
    }
  }

  /** The tag that `chars[1..i]` begins, if it is one. */
  function TagFrom(chars: string, i: nat): Option<string>
    requires 1 <= i <= |chars|
  {
    match TagLength(chars[i..])
    case None => None
    case Some(k) => Some(chars[1..i + k])
  }

  lemma TagStep(chars: string, i: nat)
    requires 1 <= i <= |chars|
    ensures TagFrom(chars, i) ==
            if i == |chars| then None
            else if chars[i] == '$' then Some(chars[1..i])
            else if !IsTagChar(chars[i]) then None
            else TagFrom(chars, i + 1)
  {
    assert i < |chars| ==> chars[i..][1..] == chars[i + 1..] && chars[i..][0] == chars[i];
  }

  /** `parseDollarQuoteTag`: reads the tag of a dollar quote that opens at the start of `chars`. */
  method ParseDollarQuoteTag(chars: string) returns (r: Option<string>)
    ensures r == DollarTag(chars)
  {
    hide TagFrom, TagLength;
    if |chars| < 3 || chars[0] != '$' {
      return None;
    }
    if chars[1] == '$' {
      return Some("");
    }
    if !IsTagStart(chars[1]) {
      return None;
    }
    var tb := "";
    var i := 1;
    DollarTagFrom(chars);
    while i < |chars|
      invariant 1 <= i <= |chars| && tb == chars[1..i]
      invariant DollarTag(chars) == TagFrom(chars, i)
    {
      var c := chars[i];
      TagStep(chars, i);
      if c == '$' {
        return Some(tb);
      }
      if !IsTagChar(c) {
        return None;
      }
      tb := tb + [c];
      i := i + 1;
    }
    TagStep(chars, i);
    return None;
  }

  lemma DollarTagFrom(chars: string)
    requires |chars| >= 3 && chars[0] == '$' && IsTagStart(chars[1])
    ensures DollarTag(chars) == TagFrom(chars, 1)
  {
  }

  /** `splitSQL`: one pass over the characters with four mode flags. It computes the statements
      that the tokens of the script stand for. */
  method SplitSQL(sql: string) returns (stmts: seq<string>)
    ensures stmts == Statements(Lex(sql))
  {
    hide *;
    stmts := [];
    var cur := "";
    var inString, inLineComment, inBlockComment, inDollarQuote := false, false, false, false;
    var dollarQuoteTag := "";
    ghost var mode := Normal;
    var n := |sql|;
    var i := 0;
    ResumeAtStart(sql);
    while i < n
      invariant inLineComment == mode.InLineComment? && inBlockComment == mode.InBlockComment?
      invariant inString == mode.InString?
      invariant inDollarQuote == mode.InDollarQuote? && (inDollarQuote ==> dollarQuoteTag == mode.tag)
      invariant stmts + Resume(mode, cur, Remaining(sql, i)) == Statements(Lex(sql))
      decreases n - i
    {
      var r := sql[i];
      if inLineComment {
        InsideLineComment(cur, sql, i);
        if r == '\n' {
          inLineComment, mode := false, Normal;
        }
      } else if inBlockComment {
        InsideBlockComment(cur, sql, i, r == '*' && i + 1 < n && sql[i + 1] == '/');
        if r == '*' && i + 1 < n && sql[i + 1] == '/' {
          inBlockComment, mode := false, Normal;
          i := i + 1;
        }
      } else if inString {
        InsideLiteral(cur, sql, i, r == '\'' && i + 1 < n && sql[i + 1] == '\'');
        cur := cur + [r];
        if r == '\'' {
          if i + 1 < n && sql[i + 1] == '\'' {
            cur := cur + [sql[i + 1]];
            i := i + 1;
          } else {
            inString, mode := false, Normal;
          }
        }
      } else if inDollarQuote {
        var closing := Fence(dollarQuoteTag);
        var rest := sql[i..];
        var found := Index(rest, closing);
        if found.Some? {
          CloseDollarQuote(cur, sql, i, dollarQuoteTag, found.value);
          var idx := ByteLength(rest[..found.value]);
          cur := cur + rest[..found.value + |closing|];
          i := i + (idx + |closing| - 1);
          dollarQuoteTag := "";
          inDollarQuote, mode := false, Normal;
        } else {
          UnclosedDollarQuote(cur, sql, i, dollarQuoteTag);
          cur := cur + [r];
        }
      } else if r == '\'' {
        EnterLiteral(cur, sql, i);
        inString, mode := true, InString;
        cur := cur + [r];
      } else if r == '-' && i + 1 < n && sql[i + 1] == '-' {
        EnterComment(cur, sql, i, InLineComment);
        inLineComment, mode := true, InLineComment;
        i := i + 1;
      } else if r == '/' && i + 1 < n && sql[i + 1] == '*' {
        EnterComment(cur, sql, i, InBlockComment);
        inBlockComment, mode := true, InBlockComment;
        i := i + 1;
      } else if r == '$' {
        var tag := ParseDollarQuoteTag(sql[i..]);
        if tag.Some? {
          EnterDollarQuote(cur, sql, i, tag.value);
          inDollarQuote, mode := true, InDollarQuote(tag.value);
          dollarQuoteTag := tag.value;
          cur := cur + Fence(tag.value);
          i := i + |tag.value| + 1;
        } else {
          StepOverCharacter(cur, sql, i);
          cur := cur + [r];
        }
      } else if r == ';' {
        StepOverCharacter(cur, sql, i);
        stmts := AppendStatement(stmts, cur);
        cur := "";
      } else {
        StepOverCharacter(cur, sql, i);
        cur := cur + [r];
      }
      i := i + 1;
    }
    ResumeAtEnd(mode, cur, sql, i);
    stmts := AppendStatement(stmts, cur);
  }

  function AppendStatement(stmts: seq<string>, cur: string): (r: seq<string>)
    ensures r == stmts + Emit(cur)
  {
    var stmt := TrimSpace(cur);
    if stmt != "" then stmts + [stmt] else stmts
  }
}
