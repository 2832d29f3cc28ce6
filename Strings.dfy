/**
 * The Kotlin and Java string operations the app relies on: `indexOf`,
 * `contains`, `substringAfter`, `substringBefore`, `trim` and `uppercase`.
 */
module Strings {
  import opened Options

  /** `pat` occurs in `s` starting at index `i`. */
  predicate OccursAt(s: string, pat: string, i: int) {
    0 <= i && i + |pat| <= |s| && s[i..i + |pat|] == pat
  }

  /** Java's `String.indexOf(pat, from)`: the first occurrence of `pat` at or after `from`. */
  function IndexFrom(s: string, pat: string, from: nat): (r: Option<nat>)
    ensures r.Some? ==> from <= r.value && OccursAt(s, pat, r.value)
    ensures r.Some? ==> forall j :: from <= j < r.value ==> !OccursAt(s, pat, j)
    ensures r.None? ==> forall j :: from <= j ==> !OccursAt(s, pat, j)
    decreases |s| - from
  {
    if from + |pat| > |s| then None
    else if s[from..from + |pat|] == pat then Some(from)
    else IndexFrom(s, pat, from + 1)
  }

  /** Java's `String.indexOf(pat)`; `None` stands for -1. */
  function IndexOf(s: string, pat: string): (r: Option<nat>)
    ensures r.Some? ==> OccursAt(s, pat, r.value) && forall j :: 0 <= j < r.value ==> !OccursAt(s, pat, j)
    ensures r.None? ==> forall j :: !OccursAt(s, pat, j)
  {
    IndexFrom(s, pat, 0)
  }

  /** Kotlin's `CharSequence.contains(other)`: `indexOf(other) >= 0`. */
  function Contains(s: string, pat: string): (b: bool)
    ensures b <==> exists i :: OccursAt(s, pat, i)
  {
    IndexOf(s, pat).Some?
  }

  /** Kotlin's `substringAfter(delimiter)`: the text after the first occurrence, or all of `s` when there is none. */
  function SubstringAfter(s: string, delimiter: string): (r: string)
    ensures !Contains(s, delimiter) ==> r == s
    ensures Contains(s, delimiter) ==>
              var i := |s| - |r| - |delimiter|;
              && 0 <= i && r == s[|s| - |r|..] && OccursAt(s, delimiter, i)
              && forall j :: 0 <= j < i ==> !OccursAt(s, delimiter, j)
  {
    match IndexOf(s, delimiter)
    case Some(i) => s[i + |delimiter|..]
    case None => s
  }

  /** Kotlin's `substringBefore(delimiter)`: the text before the first occurrence, or all of `s` when there is none. */
  function SubstringBefore(s: string, delimiter: string): (r: string)
    ensures !Contains(s, delimiter) ==> r == s
    ensures Contains(s, delimiter) ==>
              && |r| <= |s| && r == s[..|r|] && OccursAt(s, delimiter, |r|)
              && forall j :: 0 <= j < |r| ==> !OccursAt(s, delimiter, j)
  {
    match IndexOf(s, delimiter)
    case Some(i) => s[..i]
    case None => s
  }

  /** A tag whose first character appears nowhere else in it (such as `<JSON>`): no two occurrences can overlap. */
  predicate IsTag(pat: string) {
    |pat| > 0 && forall k :: 0 < k < |pat| ==> pat[k] != pat[0]
  }

  /** A tag that does not occur in `a` is first found right after `a`, however `a + pat + b` continues. */
  lemma FirstOccurrenceAfter(a: string, pat: string, b: string)
    requires IsTag(pat) && !Contains(a, pat)
    ensures IndexOf(a + pat + b, pat) == Some(|a|)
  {
    var s := a + pat + b;
    assert s[|a|..|a| + |pat|] == pat;
    assert OccursAt(s, pat, |a|);
    forall j | 0 <= j < |a|
      ensures !OccursAt(s, pat, j)
    {
      if j + |pat| <= |a| {
        assert s[j..j + |pat|] == a[j..j + |pat|];
        assert !OccursAt(a, pat, j);
      } else if j + |pat| <= |s| {
        var k := |a| - j;
        assert s[j..j + |pat|][k] == pat[0] != pat[k];
      }
    }
  }

  /**
   * Taking the text after the first `open` tag and before the next `close`
   * tag recovers exactly the body written between them.
   */
  lemma BetweenTags(a: string, open: string, body: string, close: string, c: string)
    requires IsTag(open) && IsTag(close)
    requires !Contains(a, open) && !Contains(body, close)
    ensures SubstringBefore(SubstringAfter(a + open + body + close + c, open), close) == body
  {
    var s := a + open + (body + close + c);
    assert a + open + body + close + c == s;
    FirstOccurrenceAfter(a, open, body + close + c);
    assert SubstringAfter(s, open) == body + close + c;
    FirstOccurrenceAfter(body, close, c);
  }

  /** Without a closing tag, the whole remainder after the first `open` tag is taken. */
  lemma AfterTagUnclosed(a: string, open: string, rest: string, close: string)
    requires IsTag(open) && !Contains(a, open) && !Contains(rest, close)
    ensures SubstringBefore(SubstringAfter(a + open + rest, open), close) == rest
  {
    FirstOccurrenceAfter(a, open, rest);
    assert (a + open + rest)[|a| + |open|..] == rest;
  }

  /**
   * Kotlin's `Char.isWhitespace()` on the JVM: `Character.isWhitespace(c) ||
   * Character.isSpaceChar(c)`, the space, line and paragraph separators and
   * the ASCII controls U+0009..U+000D, U+001C..U+001F.
   */
  predicate IsWhitespace(c: char) {
    || ('\t' <= c <= '\r')
    || ('\U{001C}' <= c <= ' ')
    || c == '\U{00A0}' || c == '\U{1680}'
    || ('\U{2000}' <= c <= '\U{200A}')
    || c == '\U{2028}' || c == '\U{2029}' || c == '\U{202F}' || c == '\U{205F}' || c == '\U{3000}'
  }

  predicate AllWhitespace(s: string) {
    forall i :: 0 <= i < |s| ==> IsWhitespace(s[i])
  }

  lemma WhitespaceCons(c: char, t: string)
    requires IsWhitespace(c) && AllWhitespace(t)
    ensures AllWhitespace([c] + t)
  {
  }

  lemma WhitespaceSnoc(t: string, c: char)
    requires AllWhitespace(t) && IsWhitespace(c)
    ensures AllWhitespace(t + [c])
  {
  }

  /** Neither end of `s` is whitespace. */
  predicate Trimmed(s: string) {
    s == [] || (!IsWhitespace(s[0]) && !IsWhitespace(s[|s| - 1]))
  }

  /** Kotlin's `trimStart()`: drops the leading whitespace and nothing else. */
  function TrimStart(s: string): (r: string)
    ensures r == [] || !IsWhitespace(r[0])
    ensures |r| <= |s| && r == s[|s| - |r|..] && AllWhitespace(s[..|s| - |r|])
  {
    s[LeadingWhitespace(s)..]
  }

  /** The length of the whitespace run that starts `s`. */
  function LeadingWhitespace(s: string): (n: nat)
    ensures n <= |s| && AllWhitespace(s[..n]) && (n == |s| || !IsWhitespace(s[n]))
  {
    if s != [] && IsWhitespace(s[0]) then
      var m := LeadingWhitespace(s[1..]);
      WhitespaceCons(s[0], s[1..][..m]);
      assert [s[0]] + s[1..][..m] == s[..m + 1];
      m + 1
    else 0
  }

  /** Kotlin's `trimEnd()`: drops the trailing whitespace and nothing else. */
  function TrimEnd(s: string): (r: string)
    ensures r == [] || !IsWhitespace(r[|r| - 1])
    ensures |r| <= |s| && r == s[..|r|] && AllWhitespace(s[|r|..])
  {
    if s != [] && IsWhitespace(s[|s| - 1]) then
      var r := TrimEnd(s[..|s| - 1]);
      assert s[..|s| - 1][..|r|] == s[..|r|];
      assert s[|r|..] == s[..|s| - 1][|r|..] + [s[|s| - 1]];
      WhitespaceSnoc(s[..|s| - 1][|r|..], s[|s| - 1]);
      r
    else s
  }

  /** Kotlin's `String.trim()`: drops leading and trailing whitespace. */
  function Trim(s: string): (r: string)
    ensures Trimmed(r)
  {
    TrimEnd(TrimStart(s))
  }

  /** Trimming removes exactly the whitespace padding around a trimmed core. */
  lemma {:induction false} TrimPadded(pre: string, core: string, post: string)
    requires AllWhitespace(pre) && AllWhitespace(post) && Trimmed(core)
    ensures Trim(pre + core + post) == core
  {
    if core == [] {
      assert pre + core + post == (pre + post) + [];
      TrimStartPadded(pre + post, []);
    } else {
      assert pre + core + post == pre + (core + post);
      TrimStartPadded(pre, core + post);
      TrimEndPadded(core, post);
    }
  }

  lemma {:induction false} TrimStartPadded(pre: string, rest: string)
    requires AllWhitespace(pre) && (rest == [] || !IsWhitespace(rest[0]))
    ensures TrimStart(pre + rest) == rest
  {
    if pre != [] {
      assert (pre + rest)[1..] == pre[1..] + rest;
      TrimStartPadded(pre[1..], rest);
    } else {
      assert pre + rest == rest;
    }
  }

  lemma {:induction false} TrimEndPadded(rest: string, post: string)
    requires AllWhitespace(post) && (rest == [] || !IsWhitespace(rest[|rest| - 1]))
    ensures TrimEnd(rest + post) == rest
  {
    if post != [] {
      assert (rest + post)[..|rest + post| - 1] == rest + post[..|post| - 1];
      TrimEndPadded(rest, post[..|post| - 1]);
    } else {
      assert rest + post == rest;
    }
  }

  /**
   * `Char.uppercaseChar()` restricted to what can matter when the result is
   * compared with upper-case ASCII names: a..z, dotless i (U+0131) and long s
   * (U+017F); every other character is kept as it is.
   */
  function UpperChar(c: char): char {
    if 'a' <= c <= 'z' then (c as int - 32) as char
    else if c == '\U{0131}' then 'I'
    else if c == '\U{017F}' then 'S'
    else c
  }

  /** Kotlin's `String.uppercase()`, character by character. */
  function UpperCase(s: string): (r: string)
    ensures |r| == |s|
    ensures forall i :: 0 <= i < |s| ==> ('a' <= s[i] <= 'z' ==> r[i] == (s[i] as int - 32) as char)
    ensures forall i :: 0 <= i < |s| ==> (r[i] == s[i] <==> !('a' <= s[i] <= 'z') && s[i] != '\U{0131}' && s[i] != '\U{017F}')
  {
    seq(|s|, i requires 0 <= i < |s| => UpperChar(s[i]))
  }

  /** ASCII lower-casing, used to state case-insensitivity. */
  function LowerAscii(s: string): string {
    seq(|s|, i requires 0 <= i < |s| => if 'A' <= s[i] <= 'Z' then (s[i] as int + 32) as char else s[i])
  }

  predicate AllUpperAscii(s: string) {
    forall i :: 0 <= i < |s| ==> 'A' <= s[i] <= 'Z'
  }

  /** Upper-case ASCII text is its own upper case, and upper-casing undoes ASCII lower-casing. */
  lemma UpperCaseOfUpper(s: string)
    requires AllUpperAscii(s)
    ensures UpperCase(s) == s
    ensures UpperCase(LowerAscii(s)) == s
  {
  }
}
