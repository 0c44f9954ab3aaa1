/** Optional values, results, and the facts about text that several components share. */
module Common {
  datatype Option<+T> = None | Some(value: T)

  datatype Result<+T, +E> = Ok(value: T) | Err(error: E)
}

/** Strings of Unicode scalar values, as the program's rune slices are, with the byte
    lengths of their UTF-8 encodings and Go's notion of white space. */
module Text {

  /** Number of bytes that one scalar value takes in UTF-8. */
  function Utf8Length(c: char): nat {
    if c < '\U{0080}' then 1
    else if c < '\U{0800}' then 2
    else if c < '\U{10000}' then 3
    else 4
  }

  /** What `len` returns for a Go string. */
  function ByteLength(s: string): nat {
    if s == "" then 0 else Utf8Length(s[0]) + ByteLength(s[1..])
  }

  predicate Ascii(s: string) {
    forall i :: 0 <= i < |s| ==> s[i] < '\U{0080}'
  }

  lemma {:induction false} ByteLengthExceedsUnlessAscii(s: string)
    ensures ByteLength(s) >= |s|
    ensures ByteLength(s) == |s| <==> Ascii(s)
  {
    if s != "" {
      ByteLengthExceedsUnlessAscii(s[1..]);
      assert s == [s[0]] + s[1..];
      assert Ascii(s) <==> s[0] < '\U{0080}' && Ascii(s[1..]) by {
        if Ascii(s) {
          forall i | 0 <= i < |s[1..]| ensures s[1..][i] < '\U{0080}' { assert s[1..][i] == s[i + 1]; }
        }
        if s[0] < '\U{0080}' && Ascii(s[1..]) {
          forall i | 0 <= i < |s| ensures s[i] < '\U{0080}' { if i > 0 { assert s[i] == s[1..][i - 1]; } }
        }
      }
    }
  }

  function CountFrom(s: string, bound: char): nat {
    if s == "" then 0 else (if s[0] >= bound then 1 else 0) + CountFrom(s[1..], bound)
  }

  /** Every character takes one byte, and one more from each of three bounds on. */
  lemma {:induction false} ByteLengthCounts(s: string)
    ensures ByteLength(s) ==
            |s| + CountFrom(s, '\U{0080}') + CountFrom(s, '\U{0800}') + CountFrom(s, '\U{10000}')
  {
    if s != "" {
      ByteLengthCounts(s[1..]);
    }
  }

  /** The white space that `strings.TrimSpace` removes. */
  predicate IsSpace(c: char) {
    || '\t' <= c <= '\r'
    || c == ' ' || c == '\U{0085}' || c == '\U{00A0}' || c == '\U{1680}'
    || '\U{2000}' <= c <= '\U{200A}'
    || c == '\U{2028}' || c == '\U{2029}' || c == '\U{202F}' || c == '\U{205F}' || c == '\U{3000}'
  }

  predicate Trimmed(s: string) {
    s != "" ==> !IsSpace(s[0]) && !IsSpace(s[|s| - 1])
  }

  predicate Blank(s: string) {
    forall i :: 0 <= i < |s| ==> IsSpace(s[i])
  }

  function SkipSpace(s: string, i: nat): (j: nat)
    requires i <= |s|
    ensures i <= j <= |s|
    ensures forall k :: i <= k < j ==> IsSpace(s[k])
    ensures j < |s| ==> !IsSpace(s[j])
    decreases |s| - i
  {
    if i < |s| && IsSpace(s[i]) then SkipSpace(s, i + 1) else i
  }

  function SkipSpaceBack(s: string, low: nat, i: nat): (j: nat)
    requires low <= i <= |s|
    ensures low <= j <= i
    ensures forall k :: j <= k < i ==> IsSpace(s[k])
    ensures low < j ==> !IsSpace(s[j - 1])
    decreases i
  {
    if low < i && IsSpace(s[i - 1]) then SkipSpaceBack(s, low, i - 1) else i
  }

  function TrimSpace(s: string): string {
    var low := SkipSpace(s, 0);
    s[low..SkipSpaceBack(s, low, |s|)]
  }

  /** Trimming cuts white space off both ends, and nothing else. */
  lemma TrimSpaceSplits(s: string) returns (left: string, right: string)
    ensures s == left + TrimSpace(s) + right
    ensures Blank(left) && Blank(right) && Trimmed(TrimSpace(s))
  {
    hide IsSpace, SkipSpace, SkipSpaceBack;
    var low := SkipSpace(s, 0);
    var high := SkipSpaceBack(s, low, |s|);
    left, right := s[..low], s[high..];
    CutInThree(s, low, high);
  }

  lemma CutInThree(s: string, low: nat, high: nat)
    requires low <= high <= |s|
    ensures s == s[..low] + s[low..high] + s[high..]
  {
  }

  lemma TrimTrimmed(s: string)
    requires Trimmed(s)
    ensures TrimSpace(s) == s
  {
    assert SkipSpace(s, 0) == 0;
    assert SkipSpaceBack(s, 0, |s|) == |s|;
  }

  /** `part` occurs in `whole` without a gap. */
  ghost predicate Contains(whole: string, part: string) {
    exists before, after :: whole == before + part + after
  }

  /** A word that begins and ends with something other than white space survives trimming. */
  lemma TrimKeepsWord(s: string, before: string, word: string, after: string)
    requires s == before + word + after
    requires word != "" && Trimmed(word)
    ensures Contains(TrimSpace(s), word)
    ensures TrimSpace(s) != ""
  {
    var a, b := |before|, |before| + |word|;
    assert s[a] == word[0] && s[b - 1] == word[|word| - 1];
    var low := SkipSpace(s, 0);
    var high := SkipSpaceBack(s, low, |s|);
    assert low <= a && b <= high;
    assert s[a..b] == word;
    assert s[low..high] == s[low..a] + s[a..b] + s[b..high];
  }

  /** All parts, one after the other. */
  function Flatten(parts: seq<string>): string {
    if parts == [] then "" else parts[0] + Flatten(parts[1..])
  }

  function Join(parts: seq<string>, sep: string): string {
    if parts == [] then ""
    else if |parts| == 1 then parts[0]
    else parts[0] + sep + Join(parts[1..], sep)
  }

  /** Slices that end inside the first part of a concatenation. */
  lemma SliceOfConcat(p: string, t: string, i: nat, j: nat)
    requires i <= j <= |p|
    ensures (p + t)[i..j] == p[i..j]
  {
  }

  lemma DropOfConcat(p: string, t: string, n: nat)
    requires n <= |p|
    ensures (p + t)[n..] == p[n..] + t && (p + t)[..n] == p[..n]
  {
  }

  // ----- cutting a joined text at its separators -----

  predicate Without(s: string, c: char) {
    forall i :: 0 <= i < |s| ==> s[i] != c
  }

  lemma CutAtFirst(c: char, a: string, b: string, x: string, y: string)
    requires Without(a, c) && Without(b, c) && a + [c] + x == b + [c] + y
    ensures a == b && x == y
  {
    var s := a + [c] + x;
    assert s[|a|] == c && s[|b|] == c;
    assert forall i :: 0 <= i < |a| ==> s[i] == a[i];
    assert forall i :: 0 <= i < |b| ==> s[i] == b[i];
    assert |a| == |b|;
    assert a == s[..|a|] && b == s[..|b|];
    assert x == s[|a| + 1..] && y == s[|b| + 1..];
  }

  /** Parts without the separator can be cut off a joined text from the left. */
  lemma {:induction false} CutFromLeft(c: char, p: seq<string>, q: seq<string>, n: nat)
    requires |p| == |q| > n && Join(p, [c]) == Join(q, [c])
    requires forall i :: 0 <= i < n ==> Without(p[i], c) && Without(q[i], c)
    ensures p[..n] == q[..n] && Join(p[n..], [c]) == Join(q[n..], [c])
    decreases n
  {
    hide Without;
    if n == 0 {
      assert p[0..] == p && q[0..] == q;
    } else {
      CutAtFirst(c, p[0], q[0], Join(p[1..], [c]), Join(q[1..], [c]));
      CutFromLeft(c, p[1..], q[1..], n - 1);
      assert p[..n] == [p[0]] + p[1..][..n - 1] && q[..n] == [q[0]] + q[1..][..n - 1];
      assert p[n..] == p[1..][n - 1..] && q[n..] == q[1..][n - 1..];
    }
  }

  lemma JoinOne(s: string, sep: string)
    ensures Join([s], sep) == s
  {
  }
}
