/** The two `str` methods the tokenizer relies on: `startswith` and `strip()`. */
module PyStrings {

  /** The characters `str.strip()` removes when called without arguments
      (Python's Unicode whitespace). */
  predicate IsSpace(ch: char) {
    || '\t' <= ch <= '\r' || '\U{1c}' <= ch <= ' '
    || ch == '\U{85}' || ch == '\U{a0}' || ch == '\U{1680}'
    || '\U{2000}' <= ch <= '\U{200a}' || ch == '\U{2028}' || ch == '\U{2029}'
    || ch == '\U{202f}' || ch == '\U{205f}' || ch == '\U{3000}'
  }

  predicate StartsWith(s: string, prefix: string) {
    |prefix| <= |s| && s[..|prefix|] == prefix
  }

  /** Neither the first nor the last character is whitespace. */
  predicate Trimmed(s: string) {
    s == [] || (!IsSpace(s[0]) && !IsSpace(s[|s| - 1]))
  }

  /** Length of the whitespace run at the start of `s`. */
  function LeadingSpaces(s: string): (n: nat)
    ensures n <= |s|
    ensures forall i :: 0 <= i < n ==> IsSpace(s[i])
    ensures n < |s| ==> !IsSpace(s[n])
  {
    if s != [] && IsSpace(s[0]) then 1 + LeadingSpaces(s[1..]) else 0
  }

  /** Length of the whitespace run at the end of `s`. */
  function TrailingSpaces(s: string): (n: nat)
    ensures n <= |s|
    ensures forall i :: |s| - n <= i < |s| ==> IsSpace(s[i])
    ensures n < |s| ==> !IsSpace(s[|s| - 1 - n])
  {
    if s != [] && IsSpace(s[|s| - 1]) then 1 + TrailingSpaces(s[..|s| - 1]) else 0
  }

  /** `s.strip()`: drop the leading whitespace run, then the trailing one. The
      result is the part of `s` between the two runs and has no whitespace at
      either end; a string without whitespace at its ends is left unchanged. */
  function Strip(s: string): (r: string)
    ensures Trimmed(r)
    ensures LeadingSpaces(s) + |r| <= |s|
    ensures r == s[LeadingSpaces(s)..LeadingSpaces(s) + |r|]
    ensures forall i :: LeadingSpaces(s) + |r| <= i < |s| ==> IsSpace(s[i])
    ensures Trimmed(s) ==> r == s
  {
    var t := s[LeadingSpaces(s)..];
    t[..|t| - TrailingSpaces(t)]
  }
}
