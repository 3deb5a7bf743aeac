/**
 The part of Python's string handling the app relies on: `str.strip()` with no
 argument, which removes leading and trailing whitespace, and the whitespace
 test it uses.
 */
module Text {

  /** Python's notion of a whitespace character (the characters `str.isspace()`
      accepts and `str.strip()` removes): the ASCII controls 9-13 and 28-31, the
      space, and the Unicode space and line/paragraph separators. */
  predicate IsSpace(c: char) {
    || ('\t' <= c <= '\r')
    || ('\U{1C}' <= c <= '\U{1F}')
    || c == ' '
    || c == '\U{85}'
    || c == '\U{A0}'
    || c == '\U{1680}'
    || ('\U{2000}' <= c <= '\U{200A}')
    || c == '\U{2028}'
    || c == '\U{2029}'
    || c == '\U{202F}'
    || c == '\U{205F}'
    || c == '\U{3000}'
  }

  /** A string made of whitespace only (the empty string included). */
  predicate IsBlank(s: string) {
    forall i :: 0 <= i < |s| ==> IsSpace(s[i])
  }

  /** The length of the whitespace run that `s` starts with. */
  function LeadingSpaces(s: string): (n: nat)
    ensures n <= |s|
    ensures forall i :: 0 <= i < n ==> IsSpace(s[i])
    ensures n < |s| ==> !IsSpace(s[n])
  {
    if s == [] || !IsSpace(s[0]) then 0 else 1 + LeadingSpaces(s[1..])
  }

  /** The length of the whitespace run that `s` ends with. */
  function TrailingSpaces(s: string): (n: nat)
    ensures n <= |s|
    ensures forall i :: |s| - n <= i < |s| ==> IsSpace(s[i])
    ensures n < |s| ==> !IsSpace(s[|s| - 1 - n])
  {
    if s == [] || !IsSpace(s[|s| - 1]) then 0 else 1 + TrailingSpaces(s[..|s| - 1])
  }

  /** `s.strip()`: `s` without its leading and trailing whitespace; what is left
      starts and ends with a non-whitespace character. */
  function Strip(s: string): (r: string)
    ensures |r| <= |s|
    ensures r != [] ==> !IsSpace(r[0]) && !IsSpace(r[|r| - 1])
  {
    var front := LeadingSpaces(s);
    if front == |s| then [] else s[front..|s| - TrailingSpaces(s)]
  }

  /** `s.strip()` is `s` with a whitespace prefix and a whitespace suffix cut
      off; together with the non-whitespace ends of a non-empty result, this
      pins the result down to what Python returns. */
  lemma StripRemovesOuterSpaces(s: string)
    ensures exists a, b :: 0 <= a <= b <= |s| && Strip(s) == s[a..b] &&
              IsBlank(s[..a]) && IsBlank(s[b..])
  {
    var front := LeadingSpaces(s);
    var back := TrailingSpaces(s);
    if front == |s| {
      assert Strip(s) == s[|s|..|s|];
      assert IsBlank(s[..|s|]) && IsBlank(s[|s|..]);
    } else {
      // the first non-whitespace character lies before the trailing run
      assert front < |s| - back;
      assert Strip(s) == s[front..|s| - back];
      assert IsBlank(s[..front]);
      assert IsBlank(s[|s| - back..]);
    }
  }

  /** `not s.strip()` holds exactly for the strings made of whitespace only. */
  lemma StripEmptyIffBlank(s: string)
    ensures Strip(s) == [] <==> IsBlank(s)
  {
  }

  /** Stripping twice is stripping once. */
  lemma StripIdempotent(s: string)
    ensures Strip(Strip(s)) == Strip(s)
  {
  }
}
