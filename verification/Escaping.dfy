/** The escapers of the web client, on strings of UTF-16 code units. */
module Escaping {
  import opened Common

  type Unit = u: int | 0 <= u < 0x1_0000

  type JsString = seq<Unit>

  // ----- chains of global replacements -----

  /** What one replacement makes of a single code unit. */
  function Replaced(u: Unit, c: Unit, r: JsString): JsString {
    if u == c then r else [u]
  }

  /** `s.replace(/c/g, r)` for a single code unit `c`. */
  function ReplaceAll(s: JsString, c: Unit, r: JsString): JsString {
    if s == [] then [] else Replaced(s[0], c, r) + ReplaceAll(s[1..], c, r)
  }

  datatype Rule = Rule(unit: Unit, text: JsString)

  /** One replacement after the other. */
  function Chain(rules: seq<Rule>, s: JsString): JsString {
    if rules == [] then s else Chain(rules[1..], ReplaceAll(s, rules[0].unit, rules[0].text))
  }

  /** What a code unit stands for when all rules apply at once. */
  function Image(rules: seq<Rule>, u: Unit): JsString {
    if rules == [] then [u] else if rules[0].unit == u then rules[0].text else Image(rules[1..], u)
  }

  /** One simultaneous substitution. */
  function Substitute(rules: seq<Rule>, s: JsString): JsString {
    if s == [] then [] else Image(rules, s[0]) + Substitute(rules, s[1..])
  }

  predicate Avoids(text: JsString, rules: seq<Rule>) {
    forall j :: 0 <= j < |rules| ==> rules[j].unit !in text
  }

  /** No rule rewrites the text that an earlier rule puts in. */
  predicate Independent(rules: seq<Rule>) {
    rules != [] ==> Avoids(rules[0].text, rules[1..]) && Independent(rules[1..])
  }

  lemma ReplaceStep(u: Unit, s: JsString, c: Unit, r: JsString)
    ensures ReplaceAll([u] + s, c, r) == Replaced(u, c, r) + ReplaceAll(s, c, r)
  {
    assert ([u] + s)[1..] == s;
  }

  lemma {:induction false} ReplaceConcat(a: JsString, b: JsString, c: Unit, r: JsString)
    ensures ReplaceAll(a + b, c, r) == ReplaceAll(a, c, r) + ReplaceAll(b, c, r)
    decreases |a|
  {
    if a == [] {
      assert a + b == b;
    } else {
      hide ReplaceAll, Replaced;
      var tail := a[1..];
      ReplaceConcat(tail, b, c, r);
      ReplaceStep(a[0], tail, c, r);
      ReplaceStep(a[0], tail + b, c, r);
      assert a == [a[0]] + tail;
      assert a + b == [a[0]] + (tail + b);
      Associate(Replaced(a[0], c, r), ReplaceAll(tail, c, r), ReplaceAll(b, c, r));
    }
  }

  lemma Associate(a: JsString, b: JsString, c: JsString)
    ensures a + (b + c) == (a + b) + c
  {
  }

  lemma {:induction false} ReplaceNothing(s: JsString, c: Unit, r: JsString)
    requires c !in s
    ensures ReplaceAll(s, c, r) == s
  {
    if s != [] {
      ReplaceNothing(s[1..], c, r);
    }
  }

  lemma {:induction false} ChainConcat(rules: seq<Rule>, a: JsString, b: JsString)
    ensures Chain(rules, a + b) == Chain(rules, a) + Chain(rules, b)
    decreases |rules|
  {
    hide ReplaceAll;
    if rules != [] {
      var c, r := rules[0].unit, rules[0].text;
      ReplaceConcat(a, b, c, r);
      ChainConcat(rules[1..], ReplaceAll(a, c, r), ReplaceAll(b, c, r));
    }
  }

  lemma {:induction false} ChainOfNothing(rules: seq<Rule>, s: JsString)
    requires Avoids(s, rules)
    ensures Chain(rules, s) == s
    decreases |rules|
  {
    hide ReplaceAll;
    if rules != [] {
      ReplaceNothing(s, rules[0].unit, rules[0].text);
      ChainOfNothing(rules[1..], s);
    }
  }

  lemma {:induction false} ChainOfUnit(rules: seq<Rule>, u: Unit)
    requires Independent(rules)
    ensures Chain(rules, [u]) == Image(rules, u)
    decreases |rules|
  {
    if rules != [] {
      var r := rules[0];
      assert ReplaceAll([u], r.unit, r.text) == if u == r.unit then r.text else [u];
      if u == r.unit {
        ChainOfNothing(rules[1..], r.text);
      } else {
        ChainOfUnit(rules[1..], u);
      }
    }
  }

  /** A chain of independent replacements is one simultaneous substitution. */
  lemma {:induction false} ChainIsSubstitution(rules: seq<Rule>, s: JsString)
    requires Independent(rules)
    ensures Chain(rules, s) == Substitute(rules, s)
    decreases |s|
  {
    hide Image, Independent;
    if s == [] {
      assert Avoids([], rules);
      ChainOfNothing(rules, []);
    } else {
      assert s == [s[0]] + s[1..];
      ChainConcat(rules, [s[0]], s[1..]);
      ChainOfUnit(rules, s[0]);
      ChainIsSubstitution(rules, s[1..]);
    }
  }

  /** A code unit that no image contains is not in the result. */
  lemma {:induction false} NeverProduced(rules: seq<Rule>, s: JsString, bad: Unit)
    requires forall u: Unit :: bad !in Image(rules, u)
    ensures bad !in Substitute(rules, s)
    decreases |s|
  {
    if s != [] {
      NeverProduced(rules, s[1..], bad);
    }
  }

  // ----- escaping for string literals -----

  const BACKSLASH: Unit := 0x5C
  const APOSTROPHE: Unit := 0x27
  const QUOTE: Unit := 0x22
  const BACKTICK: Unit := 0x60
  const LF: Unit := 0x0A
  const CR: Unit := 0x0D
  const LESS: Unit := 0x3C
  const GREATER: Unit := 0x3E
  const AMPERSAND: Unit := 0x26
  const LINE_SEPARATOR: Unit := 0x2028
  const PARAGRAPH_SEPARATOR: Unit := 0x2029

  /** The replacements of `escapeJS`, in order: every text is a backslash and an escape. */
  const JS_RULES: seq<Rule> := [
    Rule(BACKSLASH, [BACKSLASH, BACKSLASH]),
    Rule(APOSTROPHE, [BACKSLASH, APOSTROPHE]),
    Rule(QUOTE, [BACKSLASH, QUOTE]),
    Rule(BACKTICK, [BACKSLASH, BACKTICK]),
    Rule(LF, [BACKSLASH, 0x6E]),                                       // \n
    Rule(CR, [BACKSLASH, 0x72]),                                       // \r
    Rule(LESS, [BACKSLASH, 0x78, 0x33, 0x63]),                         // \x3c
    Rule(GREATER, [BACKSLASH, 0x78, 0x33, 0x65]),                      // \x3e
    Rule(AMPERSAND, [BACKSLASH, 0x78, 0x32, 0x36]),                    // \x26
    Rule(LINE_SEPARATOR, [BACKSLASH, 0x75, 0x32, 0x30, 0x32, 0x38]),   // \u2028
    Rule(PARAGRAPH_SEPARATOR, [BACKSLASH, 0x75, 0x32, 0x30, 0x32, 0x39])]

  /** `escapeJS`; a null argument gives the empty string. */
  function EscapeJS(s: Option<JsString>): JsString {
    match s case None => [] case Some(text) => Chain(JS_RULES, text)
  }

  function Hex(u: Unit): Option<nat> {
    if 0x30 <= u <= 0x39 then Some(u - 0x30)
    else if 0x41 <= u <= 0x46 then Some(u - 0x41 + 10)
    else if 0x61 <= u <= 0x66 then Some(u - 0x61 + 10)
    else None
  }

  /** Value of a run of hexadecimal digits. */
  function HexValue(s: JsString, value: nat): Option<nat> {
    if s == [] then Some(value)
    else match Hex(s[0]) case None => None case Some(d) => HexValue(s[1..], 16 * value + d)
  }

  function SingleEscape(u: Unit): Option<Unit> {
    if u == 0x62 then Some(0x08) else if u == 0x74 then Some(0x09) else if u == 0x6E then Some(0x0A)
    else if u == 0x76 then Some(0x0B) else if u == 0x66 then Some(0x0C) else if u == 0x72 then Some(0x0D)
    else if u == APOSTROPHE || u == QUOTE || u == BACKSLASH then Some(u)
    else None
  }

  predicate LineTerminator(u: Unit) {
    u == LF || u == CR || u == LINE_SEPARATOR || u == PARAGRAPH_SEPARATOR
  }

  /** The code unit that an escape stands for and the length of the escape, read behind the
      backslash. `None` if it is malformed, or one of the digit and code point forms that are not
      needed here. */
  function ReadEscape(s: JsString): Option<(JsString, nat)> {
    if s == [] then None
    else if s[0] == 0x78 then
      if |s| < 3 then None
      else match HexValue(s[1..3], 0) case Some(v) => (if v < 0x1_0000 then Some(([v], 3)) else None) case None => None
    else if s[0] == 0x75 then
      if |s| < 5 then None
      else match HexValue(s[1..5], 0) case Some(v) => (if v < 0x1_0000 then Some(([v], 5)) else None) case None => None
    else if SingleEscape(s[0]).Some? then Some(([SingleEscape(s[0]).value], 1))
    else if s[0] == CR && |s| > 1 && s[1] == LF then Some(([], 2))
    else if LineTerminator(s[0]) then Some(([], 1))
    else if 0x30 <= s[0] <= 0x39 then None
    else Some(([s[0]], 1))
  }

  /** The value of the text between two delimiters of a string literal, by section 12.9.4 of
      ECMA-262. `None` if the text is not the inside of one literal: the delimiter or a line break
      occurs in it without a backslash, or an escape is malformed. */
  function Decode(delimiter: Unit, s: JsString): Option<JsString>
    decreases |s|
  {
    if s == [] then Some([])
    else if s[0] == delimiter || s[0] == LF || s[0] == CR then None
    else if s[0] != BACKSLASH then
      match Decode(delimiter, s[1..]) case None => None case Some(t) => Some([s[0]] + t)
    else match ReadEscape(s[1..])
      case None => None
      case Some((units, n)) =>
        if 1 + n <= |s| then
          match Decode(delimiter, s[1 + n..]) case None => None case Some(t) => Some(units + t)
        else None
  }

  lemma JsRulesIndependent()
    ensures Independent(JS_RULES)
  {
    JsRuleIndependent(0);
    assert JS_RULES[0..] == JS_RULES;
  }

  lemma {:induction false} JsRuleIndependent(i: nat)
    requires i <= 11
    ensures Independent(JS_RULES[i..])
    decreases 11 - i
  {
    if i < 11 {
      JsRuleIndependent(i + 1);
      assert JS_RULES[i..][1..] == JS_RULES[i + 1..];
      var later := JS_RULES[i + 1..];
      forall j | 0 <= j < |later| ensures later[j].unit !in JS_RULES[i].text {
        JsRulesApart(i, i + 1 + j);
      }
    }
  }

  lemma JsRulesApart(i: nat, j: nat)
    requires i < j < 11
    ensures JS_RULES[j].unit !in JS_RULES[i].text
  {
  }

  function JsImage(u: Unit): JsString {
    if u == BACKSLASH || u == APOSTROPHE || u == QUOTE || u == BACKTICK then [BACKSLASH, u]
    else if u == LF then [BACKSLASH, 0x6E]
    else if u == CR then [BACKSLASH, 0x72]
    else if u == LESS then [BACKSLASH, 0x78, 0x33, 0x63]
    else if u == GREATER then [BACKSLASH, 0x78, 0x33, 0x65]
    else if u == AMPERSAND then [BACKSLASH, 0x78, 0x32, 0x36]
    else if u == LINE_SEPARATOR then [BACKSLASH, 0x75, 0x32, 0x30, 0x32, 0x38]
    else if u == PARAGRAPH_SEPARATOR then [BACKSLASH, 0x75, 0x32, 0x30, 0x32, 0x39]
    else [u]
  }

  lemma {:induction false} ImageFrom(i: nat, u: Unit)
    requires i <= 11
    ensures Image(JS_RULES[i..], u) ==
            if i < 11 && JS_RULES[i].unit != u then Image(JS_RULES[i + 1..], u)
            else if i < 11 then JS_RULES[i].text else [u]
  {
    if i < 11 {
      assert JS_RULES[i..][1..] == JS_RULES[i + 1..] && JS_RULES[i..][0] == JS_RULES[i];
    }
  }

  lemma LaterImage(u: Unit)
    requires u !in {BACKSLASH, APOSTROPHE, QUOTE, BACKTICK, LF, CR}
    ensures Image(JS_RULES[6..], u) == JsImage(u)
  {
    hide Image;
    ImageFrom(6, u); ImageFrom(7, u); ImageFrom(8, u); ImageFrom(9, u); ImageFrom(10, u); ImageFrom(11, u);
  }

  lemma ImageIsJsImage(u: Unit)
    ensures Image(JS_RULES, u) == JsImage(u)
  {
    hide Image;
    assert JS_RULES[0..] == JS_RULES;
    ImageFrom(0, u); ImageFrom(1, u); ImageFrom(2, u); ImageFrom(3, u); ImageFrom(4, u); ImageFrom(5, u);
    if u !in {BACKSLASH, APOSTROPHE, QUOTE, BACKTICK, LF, CR} {
      LaterImage(u);
    }
  }

  /** The escape of one code unit is read back as that unit. */
  lemma DecodeOne(delimiter: Unit, u: Unit, rest: JsString)
    requires delimiter == APOSTROPHE || delimiter == QUOTE
    ensures Decode(delimiter, JsImage(u) + rest) ==
            match Decode(delimiter, rest) { case None => None case Some(t) => Some([u] + t) }
  {
    var s := JsImage(u) + rest;
    if |JsImage(u)| == 1 {
      assert s[1..] == rest;
    } else {
      ReadBack(u, rest);
      assert s[1..] == JsImage(u)[1..] + rest;
      assert s[|JsImage(u)|..] == rest;
    }
  }

  lemma ReadBack(u: Unit, rest: JsString)
    requires |JsImage(u)| > 1
    ensures JsImage(u)[0] == BACKSLASH
    ensures ReadEscape(JsImage(u)[1..] + rest) == Some(([u], |JsImage(u)| - 1))
  {
    var t := JsImage(u)[1..] + rest;
    if |JsImage(u)| == 4 {
      assert t[1..3] == JsImage(u)[2..4];
      HexTwo(t[1], t[2]);
      assert t[1..3] == [t[1], t[2]];
    } else if |JsImage(u)| == 6 {
      assert t[1..5] == [t[1], t[2], t[3], t[4]];
      HexFour(t[1], t[2], t[3], t[4]);
    }
  }

  lemma HexTwo(a: Unit, b: Unit)
    requires Hex(a).Some? && Hex(b).Some?
    ensures HexValue([a, b], 0) == Some(16 * Hex(a).value + Hex(b).value)
  {
    assert [a, b][1..] == [b];
    assert HexValue([b], Hex(a).value) == Some(16 * Hex(a).value + Hex(b).value);
  }

  lemma HexFour(a: Unit, b: Unit, c: Unit, d: Unit)
    requires Hex(a).Some? && Hex(b).Some? && Hex(c).Some? && Hex(d).Some?
    ensures HexValue([a, b, c, d], 0) ==
            Some(16 * (16 * (16 * Hex(a).value + Hex(b).value) + Hex(c).value) + Hex(d).value)
  {
    hide Hex;
    var v := Hex(a).value;
    assert [a, b, c, d][1..] == [b, c, d] && [b, c, d][1..] == [c, d] && [c, d][1..] == [d];
    assert HexValue([b, c, d], v) == HexValue([c, d], 16 * v + Hex(b).value);
    assert HexValue([d], 16 * (16 * v + Hex(b).value) + Hex(c).value)
           == Some(16 * (16 * (16 * v + Hex(b).value) + Hex(c).value) + Hex(d).value);
  }

  lemma {:induction false} DecodeSubstitution(delimiter: Unit, s: JsString)
    requires delimiter == APOSTROPHE || delimiter == QUOTE
    ensures Decode(delimiter, Substitute(JS_RULES, s)) == Some(s)
    decreases |s|
  {
    hide Image, JsImage, Decode;
    if s == [] {
      assert Decode(delimiter, []) == Some([]) by { DecodeNothing(delimiter); }
    } else {
      ImageIsJsImage(s[0]);
      DecodeOne(delimiter, s[0], Substitute(JS_RULES, s[1..]));
      DecodeSubstitution(delimiter, s[1..]);
      assert [s[0]] + s[1..] == s;
    }
  }

  lemma DecodeNothing(delimiter: Unit)
    ensures Decode(delimiter, []) == Some([])
  {
  }

  /** Whatever a string holds, its escaped form is the inside of one string literal, in either
      kind of quotes, and the literal's value is the string. */
  lemma EscapeJSRoundTrip(delimiter: Unit, s: JsString)
    requires delimiter == APOSTROPHE || delimiter == QUOTE
    ensures EscapeJS(Some(s)) == Substitute(JS_RULES, s)
    ensures Decode(delimiter, EscapeJS(Some(s))) == Some(s)
  {
    hide Chain, Substitute, Decode, Independent;
    JsRulesIndependent();
    ChainIsSubstitution(JS_RULES, s);
    DecodeSubstitution(delimiter, s);
  }

  /** No markup character and no line break of any kind is left. */
  lemma EscapeJSRemoves(s: JsString, bad: Unit)
    requires bad in {LESS, GREATER, AMPERSAND, LF, CR, LINE_SEPARATOR, PARAGRAPH_SEPARATOR}
    ensures bad !in EscapeJS(Some(s))
  {
    hide Chain, Substitute, Independent, Image;
    JsRulesIndependent();
    ChainIsSubstitution(JS_RULES, s);
    forall u: Unit ensures bad !in Image(JS_RULES, u) {
      ImageIsJsImage(u);
    }
    NeverProduced(JS_RULES, s, bad);
  }

  // ----- escaping for markup -----

  const HTML_RULES: seq<Rule> := [
    Rule(AMPERSAND, [AMPERSAND, 0x61, 0x6D, 0x70, 0x3B]),                // &amp;
    Rule(LESS, [AMPERSAND, 0x6C, 0x74, 0x3B]),                           // &lt;
    Rule(GREATER, [AMPERSAND, 0x67, 0x74, 0x3B]),                        // &gt;
    Rule(QUOTE, [AMPERSAND, 0x71, 0x75, 0x6F, 0x74, 0x3B]),              // &quot;
    Rule(APOSTROPHE, [AMPERSAND, 0x23, 0x30, 0x33, 0x39, 0x3B])]         // &#039;

  /** `escapeHTML`; a null argument gives the empty string. */
  function EscapeHTML(s: Option<JsString>): JsString {
    match s case None => [] case Some(text) => Chain(HTML_RULES, text)
  }

  /** The rule whose entity stands at the start of a text. */
  function EntityAt(rules: seq<Rule>, s: JsString): Option<Rule> {
    if rules == [] then None
    else if rules[0].text != [] && rules[0].text <= s then Some(rules[0])
    else EntityAt(rules[1..], s)
  }

  lemma {:induction false} EntityAtIsPrefix(rules: seq<Rule>, s: JsString)
    ensures EntityAt(rules, s).Some? ==> EntityAt(rules, s).value.text <= s && EntityAt(rules, s).value.text != []
  {
    if rules != [] {
      EntityAtIsPrefix(rules[1..], s);
    }
  }

  /** Decoding the five entities; any other text stands for itself. */
  function DecodeHTML(s: JsString): JsString
    decreases |s|
  {
    if s == [] then []
    else
      EntityAtIsPrefix(HTML_RULES, s);
      match EntityAt(HTML_RULES, s)
      case Some(r) => [r.unit] + DecodeHTML(s[|r.text|..])
      case None => [s[0]] + DecodeHTML(s[1..])
  }

  lemma HtmlRulesIndependent()
    ensures Independent(HTML_RULES)
  {
    HtmlRuleIndependent(0);
    assert HTML_RULES[0..] == HTML_RULES;
  }

  lemma {:induction false} HtmlRuleIndependent(i: nat)
    requires i <= 5
    ensures Independent(HTML_RULES[i..])
    decreases 5 - i
  {
    if i < 5 {
      HtmlRuleIndependent(i + 1);
      assert HTML_RULES[i..][1..] == HTML_RULES[i + 1..];
      var later := HTML_RULES[i + 1..];
      forall j | 0 <= j < |later| ensures later[j].unit !in HTML_RULES[i].text {
        HtmlRulesApart(i, i + 1 + j);
      }
    }
  }

  lemma HtmlRulesApart(i: nat, j: nat)
    requires i < j < 5
    ensures HTML_RULES[j].unit !in HTML_RULES[i].text
  {
  }

  lemma HtmlImageFrom(i: nat, u: Unit)
    requires i <= 5
    ensures Image(HTML_RULES[i..], u) ==
            if i < 5 && HTML_RULES[i].unit != u then Image(HTML_RULES[i + 1..], u)
            else if i < 5 then HTML_RULES[i].text else [u]
  {
    if i < 5 {
      assert HTML_RULES[i..][1..] == HTML_RULES[i + 1..] && HTML_RULES[i..][0] == HTML_RULES[i];
    }
  }

  lemma EntityFrom(i: nat, s: JsString)
    requires i <= 5
    ensures EntityAt(HTML_RULES[i..], s) ==
            if i < 5 && HTML_RULES[i].text <= s then Some(HTML_RULES[i])
            else if i < 5 then EntityAt(HTML_RULES[i + 1..], s) else None
  {
    if i < 5 {
      assert HTML_RULES[i..][1..] == HTML_RULES[i + 1..] && HTML_RULES[i..][0] == HTML_RULES[i];
    }
  }

  function HtmlIndex(u: Unit): (i: nat)
    ensures i <= 5
  {
    if u == AMPERSAND then 0 else if u == LESS then 1 else if u == GREATER then 2
    else if u == QUOTE then 3 else if u == APOSTROPHE then 4 else 5
  }

  lemma HtmlImage(u: Unit)
    ensures Image(HTML_RULES, u) == if HtmlIndex(u) < 5 then HTML_RULES[HtmlIndex(u)].text else [u]
    ensures HtmlIndex(u) < 5 ==> HTML_RULES[HtmlIndex(u)].unit == u
  {
    hide Image;
    assert HTML_RULES[0..] == HTML_RULES;
    HtmlImageFrom(0, u); HtmlImageFrom(1, u); HtmlImageFrom(2, u); HtmlImageFrom(3, u); HtmlImageFrom(4, u);
    HtmlImageFrom(5, u);
  }

  /** Entities differ in their second unit, so at most one stands at the start of a text. */
  lemma EntityOfText(k: nat, s: JsString)
    requires k <= 5
    requires if k < 5 then HTML_RULES[k].text <= s else s != [] && s[0] != AMPERSAND
    ensures EntityAt(HTML_RULES, s) == if k < 5 then Some(HTML_RULES[k]) else None
  {
    hide EntityAt;
    assert HTML_RULES[0..] == HTML_RULES;
    forall i | 0 <= i < 5 && i != k ensures !(HTML_RULES[i].text <= s) {
      EntitiesApart(i, k, s);
    }
    EntityFrom(0, s); EntityFrom(1, s); EntityFrom(2, s); EntityFrom(3, s); EntityFrom(4, s); EntityFrom(5, s);
  }

  lemma EntitiesApart(i: nat, k: nat, s: JsString)
    requires i < 5 && k <= 5 && i != k
    requires if k < 5 then HTML_RULES[k].text <= s else s != [] && s[0] != AMPERSAND
    ensures !(HTML_RULES[i].text <= s)
  {
    if k < 5 {
      EntityHeads(HTML_RULES[k].text, s);
      assert |s| > 1 && s[1] != HTML_RULES[i].text[1];
    }
  }

  lemma EntityHeads(text: JsString, s: JsString)
    requires text <= s && |text| > 1
    ensures |s| > 1 && s[0] == text[0] && s[1] == text[1]
  {
  }

  lemma {:induction false} DecodeHTMLSubstitution(s: JsString)
    ensures DecodeHTML(Substitute(HTML_RULES, s)) == s
    decreases |s|
  {
    hide Image, EntityAt, Substitute;
    SubstituteStep(HTML_RULES, s);
    if s != [] {
      var image, rest := Image(HTML_RULES, s[0]), Substitute(HTML_RULES, s[1..]);
      HtmlImage(s[0]);
      EntityOfText(HtmlIndex(s[0]), image + rest);
      DecodeHTMLSubstitution(s[1..]);
      assert (image + rest)[|image|..] == rest;
      assert [s[0]] + s[1..] == s;
    }
  }

  lemma SubstituteStep(rules: seq<Rule>, s: JsString)
    ensures Substitute(rules, s) == if s == [] then [] else Image(rules, s[0]) + Substitute(rules, s[1..])
  {
  }

  /** The chain of replacements is one substitution, and decoding the entities undoes it. */
  lemma EscapeHTMLRoundTrip(s: JsString)
    ensures EscapeHTML(Some(s)) == Substitute(HTML_RULES, s)
    ensures DecodeHTML(EscapeHTML(Some(s))) == s
  {
    hide Chain, Substitute, DecodeHTML, Independent;
    HtmlRulesIndependent();
    ChainIsSubstitution(HTML_RULES, s);
    DecodeHTMLSubstitution(s);
  }

  /** No character that opens a tag or closes an attribute value is left. */
  lemma EscapeHTMLRemoves(s: JsString, bad: Unit)
    requires bad in {LESS, GREATER, QUOTE, APOSTROPHE}
    ensures bad !in EscapeHTML(Some(s))
  {
    hide Chain, Substitute, Independent, Image;
    HtmlRulesIndependent();
    ChainIsSubstitution(HTML_RULES, s);
    forall u: Unit ensures bad !in Image(HTML_RULES, u) {
      HtmlImage(u);
    }
    NeverProduced(HTML_RULES, s, bad);
  }

  // ----- the texts that are put in -----

  /** The code units of an ASCII text. */
  function Units(s: string): (r: JsString)
    requires forall i :: 0 <= i < |s| ==> s[i] < '\U{0080}'
    ensures |r| == |s| && forall i :: 0 <= i < |s| ==> r[i] == s[i] as int
  {
    seq(|s|, i requires 0 <= i < |s| => s[i] as int)
  }

  lemma ImageOfUnit(rules: seq<Rule>, u: Unit)
    ensures Substitute(rules, [u]) == Image(rules, u)
  {
    assert [u][1..] == [];
    assert Image(rules, u) + [] == Image(rules, u);
  }

  /** The entity of every character that markup gives a meaning; every other stays as it is. */
  lemma EntitiesAre(u: Unit)
    ensures EscapeHTML(Some(Units("&"))) == Units("&amp;")
    ensures EscapeHTML(Some(Units("<"))) == Units("&lt;")
    ensures EscapeHTML(Some(Units(">"))) == Units("&gt;")
    ensures EscapeHTML(Some(Units("\""))) == Units("&quot;")
    ensures EscapeHTML(Some(Units("'"))) == Units("&#039;")
    ensures [u] !in {Units("&"), Units("<"), Units(">"), Units("\""), Units("'")} ==> EscapeHTML(Some([u])) == [u]
  {
    hide Image, Substitute, Chain;
    EntityOf('&', "&amp;", 0);
    EntityOf('<', "&lt;", 1);
    EntityOf('>', "&gt;", 2);
    EntityOf('"', "&quot;", 3);
    EntityOf('\'', "&#039;", 4);
    if [u] !in {Units("&"), Units("<"), Units(">"), Units("\""), Units("'")} {
      OrdinaryUnit(u);
      EscapeHTMLRoundTrip([u]);
      ImageOfUnit(HTML_RULES, u);
      HtmlImage(u);
    }
  }

  lemma OrdinaryUnit(u: Unit)
    requires [u] !in {Units("&"), Units("<"), Units(">"), Units("\""), Units("'")}
    ensures HtmlIndex(u) == 5
  {
    assert Units("&") == [AMPERSAND] && Units("<") == [LESS] && Units(">") == [GREATER];
    assert Units("\"") == [QUOTE] && Units("'") == [APOSTROPHE];
  }

  /** What `escapeJS` puts in for every ASCII character with a meaning; every unit without one stays. */
  lemma EscapesAre(u: Unit)
    ensures EscapeJS(Some([u])) ==
            if [u] == Units("\\") then Units("\\\\") else if [u] == Units("'") then Units("\\'")
            else if [u] == Units("\"") then Units("\\\"") else if [u] == Units("`") then Units("\\`")
            else if [u] == Units("\n") then Units("\\n") else if [u] == Units("\r") then Units("\\r")
            else if [u] == Units("<") then Units("\\x3c") else if [u] == Units(">") then Units("\\x3e")
            else if [u] == Units("&") then Units("\\x26") else if u == 0x2028 then Units("\\u2028")
            else if u == 0x2029 then Units("\\u2029") else [u]
  {
    hide Image, Substitute, Chain, Decode;
    EscapeJSRoundTrip(QUOTE, [u]);
    ImageOfUnit(JS_RULES, u);
    ImageIsJsImage(u);
    assert Units("\\") == [BACKSLASH] && Units("'") == [APOSTROPHE] && Units("\"") == [QUOTE];
    assert Units("`") == [BACKTICK];
    assert Units("\n") == [LF] && Units("\r") == [CR] && Units("<") == [LESS] && Units(">") == [GREATER];
    assert Units("&") == [AMPERSAND];
  }

  lemma EntityOf(c: char, entity: string, i: nat)
    requires (c, entity, i) in {('&', "&amp;", 0), ('<', "&lt;", 1), ('>', "&gt;", 2), ('"', "&quot;", 3),
                                ('\'', "&#039;", 4)}
    ensures EscapeHTML(Some(Units([c]))) == Units(entity)
  {
    hide Image, Substitute, Chain;
    var u := c as int;
    assert Units([c]) == [u];
    EscapeHTMLRoundTrip([u]);
    ImageOfUnit(HTML_RULES, u);
    HtmlImage(u);
    assert HtmlIndex(u) == i;
    assert HTML_RULES[i].text == Units(entity);
  }
}
