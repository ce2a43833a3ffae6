/** The two JavaScript string built-ins the handler relies on:
    `String.prototype.trim` and `s.split(sep)[0]`. */
module JsString {

  /** The characters `trim` removes: ECMAScript's WhiteSpace and LineTerminator
      code points (TAB, VT, FF, SP, NBSP, ZWNBSP, the Zs category, LF, CR, LS, PS). */
  predicate IsWhitespace(c: char) {
    || c == '\t' || c == '\n' || c == '\U{000B}' || c == '\U{000C}' || c == '\r'
    || c == ' ' || c == '\U{00A0}' || c == '\U{1680}'
    || ('\U{2000}' <= c <= '\U{200A}')
    || c == '\U{2028}' || c == '\U{2029}' || c == '\U{202F}' || c == '\U{205F}'
    || c == '\U{3000}' || c == '\U{FEFF}'
  }

  /** Every character is whitespace (the empty string is blank). */
  predicate IsBlank(s: string) {
    forall k | 0 <= k < |s| :: IsWhitespace(s[k])
  }

  /** A string with no whitespace at either end: what `trim` leaves. */
  predicate IsTrimmed(s: string) {
    s == [] || (!IsWhitespace(s[0]) && !IsWhitespace(s[|s| - 1]))
  }

  /** Length of the longest all-whitespace prefix. */
  function LeadingSpace(s: string): (n: nat)
    ensures n <= |s|
    ensures forall k | 0 <= k < n :: IsWhitespace(s[k])
    ensures n < |s| ==> !IsWhitespace(s[n])
  {
    if s == [] || !IsWhitespace(s[0]) then 0
    else 1 + LeadingSpace(s[1..])
  }

  /** Length of the longest all-whitespace suffix. */
  function TrailingSpace(s: string): (n: nat)
    ensures n <= |s|
    ensures forall k | |s| - n <= k < |s| :: IsWhitespace(s[k])
    ensures n < |s| ==> !IsWhitespace(s[|s| - n - 1])
  {
    if s == [] || !IsWhitespace(s[|s| - 1]) then 0
    else 1 + TrailingSpace(s[..|s| - 1])
  }

  /** `s.trim()`: the string with its maximal whitespace prefix and suffix removed. */
  function Trim(s: string): (r: string)
    ensures IsTrimmed(r)
    ensures LeadingSpace(s) + |r| <= |s|
    ensures r == s[LeadingSpace(s)..LeadingSpace(s) + |r|]
    ensures r == [] <==> IsBlank(s)
  {
    var a := LeadingSpace(s);
    if a == |s| then []
    else s[a..|s| - TrailingSpace(s)]
  }

  /** `trim` removes only whitespace: everything of `s` after the kept part is
      whitespace, as everything before it is (`LeadingSpace`). */
  lemma TrimRemovesOnlyWhitespace(s: string)
    ensures forall k | LeadingSpace(s) + |Trim(s)| <= k < |s| :: IsWhitespace(s[k])
  {
    if LeadingSpace(s) < |s| {
      var t := TrailingSpace(s);
      assert |Trim(s)| == |s| - t - LeadingSpace(s);
    }
  }

  /** A whitespace-free core between two blank margins is exactly what `trim` returns:
      the uniqueness half of `Trim`'s contract. */
  lemma TrimUnique(pre: string, core: string, post: string)
    requires IsBlank(pre) && IsBlank(post) && IsTrimmed(core)
    ensures Trim(pre + core + post) == core
  {
    var s := pre + core + post;
    if core == [] {
      assert s == pre + post;
      assert IsBlank(s);
    } else {
      assert s == pre + (core + post);
      LeadingSpaceOf(pre, core + post);
      TrailingSpaceOf(pre + core, post);
      assert s[|pre|..|s| - |post|] == core;
    }
  }

  /** A blank margin followed by a non-whitespace character: the margin is the
      whitespace prefix. */
  lemma {:induction false} LeadingSpaceOf(pre: string, rest: string)
    requires IsBlank(pre) && rest != [] && !IsWhitespace(rest[0])
    ensures LeadingSpace(pre + rest) == |pre|
  {
    if pre == [] {
      assert pre + rest == rest;
    } else {
      assert (pre + rest)[1..] == pre[1..] + rest;
      LeadingSpaceOf(pre[1..], rest);
    }
  }

  /** A non-whitespace character followed by a blank margin: the margin is the
      whitespace suffix. */
  lemma {:induction false} TrailingSpaceOf(rest: string, post: string)
    requires IsBlank(post) && rest != [] && !IsWhitespace(rest[|rest| - 1])
    ensures TrailingSpace(rest + post) == |post|
  {
    if post == [] {
      assert rest + post == rest;
    } else {
      var n := |post| - 1;
      assert (rest + post)[..|rest + post| - 1] == rest + post[..n];
      TrailingSpaceOf(rest, post[..n]);
    }
  }

  /** `s.split(sep)[0]`: the text before the first `sep`, or all of `s` when it has none. */
  function BeforeFirst(s: string, sep: char): (r: string)
    ensures |r| <= |s| && r == s[..|r|]
    ensures sep !in r
    ensures |r| < |s| ==> s[|r|] == sep
  {
    if s == [] || s[0] == sep then []
    else [s[0]] + BeforeFirst(s[1..], sep)
  }

  /** With no separator in the string, the first segment is the whole string. */
  lemma BeforeFirstAbsent(s: string, sep: char)
    requires sep !in s
    ensures BeforeFirst(s, sep) == s
  {
  }

  /** The first segment of `pre + sep + post` is `pre` whenever `pre` has no separator. */
  lemma BeforeFirstSplit(pre: string, sep: char, post: string)
    requires sep !in pre
    ensures BeforeFirst(pre + [sep] + post, sep) == pre
  {
    var s := pre + [sep] + post;
    assert s[|pre|] == sep;
    assert forall k | 0 <= k < |pre| :: s[k] == pre[k];
    assert s[..|pre|] == pre;
  }
}
