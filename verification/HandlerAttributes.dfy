/** Strings that reach an event handler through a double-quoted attribute: the page is read as
    markup first, and the attribute's value as a script then. */
module HandlerAttributes {
  import opened Common
  import opened Escaping

  const PARENTHESIS: Unit := 0x29

  /** The characters of a double-quoted attribute value, before its closing quote. */
  function UpToQuote(s: JsString): JsString {
    if s == [] || s[0] == QUOTE then [] else [s[0]] + UpToQuote(s[1..])
  }

  const NULL: Unit := 0
  const REPLACEMENT: Unit := 0xFFFD

  /** In an attribute value a null character is replaced. */
  function ReplaceNulls(s: JsString): (r: JsString)
    ensures |r| == |s| && forall i :: 0 <= i < |s| ==> r[i] == if s[i] == NULL then REPLACEMENT else s[i]
  {
    seq(|s|, i requires 0 <= i < |s| => if s[i] == NULL then REPLACEMENT else s[i])
  }

  /** What follows the text of a string argument: its delimiter, the end of the call, and the end of
      the attribute. */
  const CLOSING: JsString := [APOSTROPHE, PARENTHESIS, QUOTE]

  /** The value of the last argument of a call, `s` being the markup behind the argument's opening
      apostrophe. `None` if the attribute's value does not end with the call. */
  function Argument(s: JsString): Option<JsString> {
    var script := DecodeHTML(ReplaceNulls(UpToQuote(s)));
    var n := |script| - 2;
    if n >= 0 && script[n..] == [APOSTROPHE, PARENTHESIS] then Decode(APOSTROPHE, script[..n]) else None
  }

  lemma {:induction false} NoEntities(s: JsString)
    requires AMPERSAND !in s
    ensures DecodeHTML(s) == s
    decreases |s|
  {
    hide EntityAt;
    if s != [] {
      EntityOfText(5, s);
      NoEntities(s[1..]);
    }
  }

  lemma {:induction false} QuoteFree(a: JsString, b: JsString)
    requires QUOTE !in a
    ensures UpToQuote(a + b) == a + UpToQuote(b)
    decreases |a|
  {
    if a == [] {
      assert a + b == b;
    } else {
      QuoteFree(a[1..], b);
      assert (a + b)[1..] == a[1..] + b;
      assert [a[0]] + (a[1..] + UpToQuote(b)) == a + UpToQuote(b);
    }
  }

  lemma {:induction false} CutIsPrefix(s: JsString)
    ensures UpToQuote(s) <= s && QUOTE !in UpToQuote(s)
  {
    if s != [] && s[0] != QUOTE {
      CutIsPrefix(s[1..]);
    }
  }

  lemma QuoteInImage(u: Unit)
    ensures QUOTE in JsImage(u) <==> u == QUOTE
    ensures u == QUOTE ==> JsImage(u) == [BACKSLASH, QUOTE]
    ensures AMPERSAND !in JsImage(u)
  {
  }

  /** The attribute ends at the first double quote of the string, just behind the backslash that was
      put in front of it. */
  lemma {:induction false} CutOfEscaped(s: JsString, tail: JsString)
    ensures var cut := UpToQuote(Substitute(JS_RULES, s) + tail);
            if QUOTE in s then cut != [] && cut[|cut| - 1] == BACKSLASH
            else cut == Substitute(JS_RULES, s) + UpToQuote(tail)
    decreases |s|
  {
    hide Image, JsImage, UpToQuote;
    SubstituteStep(JS_RULES, s);
    if s == [] {
      assert [] + tail == tail && [] + UpToQuote(tail) == UpToQuote(tail);
    } else {
      var image, rest := JsImage(s[0]), Substitute(JS_RULES, s[1..]);
      ImageIsJsImage(s[0]);
      QuoteInImage(s[0]);
      assert image + rest + tail == image + (rest + tail);
      if s[0] == QUOTE {
        CutAtQuote(rest + tail);
      } else {
        CutOfEscaped(s[1..], tail);
        QuoteFree(image, rest + tail);
        assert image + (rest + UpToQuote(tail)) == image + rest + UpToQuote(tail);
      }
    }
  }

  lemma CutAtQuote(t: JsString)
    ensures UpToQuote([BACKSLASH, QUOTE] + t) == [BACKSLASH]
  {
    var s := [BACKSLASH, QUOTE] + t;
    assert s[1..] == [QUOTE] + t;
    assert UpToQuote([QUOTE] + t) == [];
  }

  lemma CutOfClosing()
    ensures UpToQuote(CLOSING) == [APOSTROPHE, PARENTHESIS]
  {
    assert CLOSING[1..] == [PARENTHESIS, QUOTE] && CLOSING[1..][1..] == [QUOTE];
    assert UpToQuote([PARENTHESIS, QUOTE]) == [PARENTHESIS];
  }

  lemma NullInImage(u: Unit)
    ensures ReplaceNulls(JsImage(u)) == JsImage(ReplaceNulls([u])[0])
  {
  }

  /** Replacing null characters after escaping is as replacing them before. */
  lemma {:induction false} NullsOfEscaped(s: JsString)
    ensures ReplaceNulls(Substitute(JS_RULES, s)) == Substitute(JS_RULES, ReplaceNulls(s))
    decreases |s|
  {
    hide Image, JsImage, Substitute;
    var r := ReplaceNulls(s);
    SubstituteStep(JS_RULES, s);
    SubstituteStep(JS_RULES, r);
    if s != [] {
      ImageIsJsImage(s[0]);
      ImageIsJsImage(r[0]);
      NullInImage(s[0]);
      assert ReplaceNulls([s[0]])[0] == r[0];
      NullsOfEscaped(s[1..]);
      assert ReplaceNulls(s[1..]) == r[1..];
      NullsOfConcat(JsImage(s[0]), Substitute(JS_RULES, s[1..]));
    }
  }

  lemma NullsOfConcat(a: JsString, b: JsString)
    ensures ReplaceNulls(a + b) == ReplaceNulls(a) + ReplaceNulls(b)
  {
  }

  /** What the handler receives: nothing if the string holds a double quote, and else the string with
      its null characters replaced. */
  lemma ArgumentIs(s: JsString)
    ensures Argument(EscapeJS(Some(s)) + CLOSING) == if QUOTE in s then None else Some(ReplaceNulls(s))
  {
    hide Chain, Substitute, Independent, UpToQuote, DecodeHTML, Decode;
    var escaped := EscapeJS(Some(s));
    EscapeJSRoundTrip(APOSTROPHE, s);
    EscapeJSRoundTrip(APOSTROPHE, ReplaceNulls(s));
    EscapeJSRemoves(s, AMPERSAND);
    CutOfEscaped(s, CLOSING);
    CutOfClosing();
    CutIsPrefix(escaped + CLOSING);
    var cut := ReplaceNulls(UpToQuote(escaped + CLOSING));
    assert AMPERSAND !in escaped + CLOSING;
    NoEntities(cut);
    if QUOTE in s {
      assert cut[|cut| - 1] == BACKSLASH;
      assert |cut| >= 2 ==> cut[|cut| - 2..][1] == BACKSLASH;
    } else {
      NullsOfEscaped(s);
      NullsOfConcat(escaped, [APOSTROPHE, PARENTHESIS]);
      assert ReplaceNulls([APOSTROPHE, PARENTHESIS]) == [APOSTROPHE, PARENTHESIS];
      assert cut[..|cut| - 2] == ReplaceNulls(escaped) && cut[|cut| - 2..] == [APOSTROPHE, PARENTHESIS];
    }
  }

  /** Through a double-quoted attribute the handler receives the string exactly when it holds no
      double quote, as the backslash protects the script and not the attribute, and no null
      character. */
  lemma ArgumentArrivesIff(s: JsString)
    ensures Argument(EscapeJS(Some(s)) + CLOSING) == Some(s) <==> QUOTE !in s && NULL !in s
  {
    hide Argument, EscapeJS;
    ArgumentIs(s);
    if NULL in s {
      var i :| 0 <= i < |s| && s[i] == NULL;
      assert ReplaceNulls(s)[i] != s[i];
    } else {
      assert ReplaceNulls(s) == s;
    }
  }

  /** The shortest string that does not arrive. */
  lemma QuoteDoesNotArrive()
    ensures Argument(EscapeJS(Some([QUOTE])) + CLOSING) == None
  {
    hide Argument, EscapeJS;
    ArgumentIs([QUOTE]);
  }
}
