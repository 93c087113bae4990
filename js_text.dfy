/** The JavaScript string operations the handlers rely on, stated on `seq<char>`. */
module JsText {
  import opened Wrappers
  import opened Seqs

  /** The characters matched by the regular-expression class `\s` and removed by
      `String.prototype.trim`: WhiteSpace and LineTerminator of ECMA-262. */
  predicate IsJsWhitespace(c: char) {
    c == '\t' || c == '\n' || c == '\U{000B}' || c == '\U{000C}' || c == '\r' || c == ' '
    || c == '\U{00A0}' || c == '\U{1680}' || ('\U{2000}' <= c <= '\U{200A}')
    || c == '\U{2028}' || c == '\U{2029}' || c == '\U{202F}' || c == '\U{205F}'
    || c == '\U{3000}' || c == '\U{FEFF}'
  }

  predicate IsAsciiUpper(c: char) { 'A' <= c <= 'Z' }

  predicate IsAsciiLower(c: char) { 'a' <= c <= 'z' }

  predicate IsAsciiLetter(c: char) { IsAsciiUpper(c) || IsAsciiLower(c) }

  /** `toLowerCase` on one character, for the ASCII range. */
  function LowerChar(c: char): (r: char)
    ensures IsAsciiLetter(c) ==> IsAsciiLower(r)
    ensures !IsAsciiUpper(c) ==> r == c
  {
    if IsAsciiUpper(c) then (c as int + 32) as char else c
  }

  /** `toLowerCase` for the ASCII range: upper-case letters become lower-case, all else stays. */
  function LowerAscii(s: string): (r: string)
    ensures |r| == |s|
    ensures forall i :: 0 <= i < |s| ==> r[i] == LowerChar(s[i])
  {
    seq(|s|, i requires 0 <= i < |s| => LowerChar(s[i]))
  }

  /** Lowering a string without upper-case letters changes nothing. */
  lemma LowerAsciiNoUpper(s: string)
    requires forall i :: 0 <= i < |s| ==> !IsAsciiUpper(s[i])
    ensures LowerAscii(s) == s
  {
  }

  /** Lower-casing leaves no upper-case letter. */
  lemma LowerAsciiHasNoUpper(s: string)
    ensures forall i :: 0 <= i < |LowerAscii(s)| ==> !IsAsciiUpper(LowerAscii(s)[i])
  {
  }

  /** Lower-casing a concatenation lower-cases each part. */
  lemma LowerAsciiAppend(a: string, b: string)
    ensures LowerAscii(a + b) == LowerAscii(a) + LowerAscii(b)
  {
  }

  /** `r` is the slice of `s` that starts after its leading white space and has only white
      space after it. */
  predicate IsTrimmedSlice(s: string, r: string) {
    var start := PrefixLength(IsJsWhitespace, s);
    && start + |r| <= |s|
    && r == s[start..start + |r|]
    && (forall i :: 0 <= i < start ==> IsJsWhitespace(s[i]))
    && (forall i :: start + |r| <= i < |s| ==> IsJsWhitespace(s[i]))
  }

  /** `String.prototype.trim`: white space removed from both ends, the rest untouched. */
  function Trim(s: string): (r: string)
    ensures IsTrimmedSlice(s, r)
    ensures r == [] || (!IsJsWhitespace(r[0]) && !IsJsWhitespace(r[|r| - 1]))
  {
    var front := DropWhile(IsJsWhitespace, s);
    front[..|front| - TrailingWhitespace(front)]
  }

  /** The number of white-space characters at the end of `s`. */
  function TrailingWhitespace(s: string): (n: nat)
    ensures n <= |s|
    ensures forall i :: |s| - n <= i < |s| ==> IsJsWhitespace(s[i])
    ensures n < |s| ==> !IsJsWhitespace(s[|s| - n - 1])
  {
    if s != [] && IsJsWhitespace(s[|s| - 1]) then 1 + TrailingWhitespace(s[..|s| - 1]) else 0
  }

  /** `pat` occurs in `s` starting at index `i`. */
  predicate OccursAt(s: string, pat: string, i: int) {
    0 <= i && i + |pat| <= |s| && s[i..i + |pat|] == pat
  }

  /** `s.indexOf(pat)`: the first index at which `pat` occurs, if any. */
  function IndexOf(s: string, pat: string): (r: Option<nat>)
    ensures r.Some? ==> OccursAt(s, pat, r.value)
    ensures r.Some? ==> forall j :: 0 <= j < r.value ==> !OccursAt(s, pat, j)
    ensures r.None? ==> forall j :: !OccursAt(s, pat, j)
  {
    IndexFrom(s, pat, 0)
  }

  /** The first occurrence of `pat` in `s` at index `k` or later. */
  function IndexFrom(s: string, pat: string, k: nat): (r: Option<nat>)
    requires k <= |s|
    ensures r.Some? ==> k <= r.value && OccursAt(s, pat, r.value)
    ensures r.Some? ==> forall j :: k <= j < r.value ==> !OccursAt(s, pat, j)
    ensures r.None? ==> forall j :: k <= j ==> !OccursAt(s, pat, j)
    decreases |s| - k
  {
    if k + |pat| > |s| then None
    else if s[k..k + |pat|] == pat then Some(k)
    else if k == |s| then None
    else IndexFrom(s, pat, k + 1)
  }

  /** `s` contains `pat`: what an unanchored regular expression made of the literal `pat` tests. */
  predicate Contains(s: string, pat: string) {
    IndexOf(s, pat).Some?
  }

  /** A string contains everything placed inside it. */
  lemma ContainsInfix(a: string, pat: string, b: string)
    ensures Contains(a + pat + b, pat)
  {
    assert OccursAt(a + pat + b, pat, |a|) by {
      assert (a + pat + b)[|a|..|a| + |pat|] == pat;
    }
  }

  /** `s.replace(pat, rep)` with a string pattern: the FIRST occurrence only is replaced. */
  function ReplaceFirst(s: string, pat: string, rep: string): string {
    match IndexOf(s, pat)
    case None => s
    case Some(i) => s[..i] + rep + s[i + |pat|..]
  }

  /** Replacing the first occurrence: when `pat` first occurs right after `a`, exactly that
      occurrence is replaced, and any later one in `b` stays. */
  lemma ReplaceFirstAt(a: string, pat: string, b: string, rep: string)
    requires forall j :: 0 <= j < |a| ==> !OccursAt(a + pat + b, pat, j)
    ensures ReplaceFirst(a + pat + b, pat, rep) == a + rep + b
  {
    var s := a + pat + b;
    assert OccursAt(s, pat, |a|) by {
      assert s[|a|..|a| + |pat|] == pat;
    }
    assert s[..|a|] == a;
    assert s[|a| + |pat|..] == b;
  }

  /** A string without `pat` is left as it is. */
  lemma ReplaceFirstAbsent(s: string, pat: string, rep: string)
    requires !Contains(s, pat)
    ensures ReplaceFirst(s, pat, rep) == s
  {
  }
}
