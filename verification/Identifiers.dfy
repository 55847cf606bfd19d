/** Character classes and names of the expression language. */
module Identifiers {
  predicate IsDigitChar(c: char) {
    '0' <= c <= '9'
  }

  predicate IsNameStart(c: char) {
    'a' <= c <= 'z' || 'A' <= c <= 'Z' || c == '_'
  }

  predicate IsNameChar(c: char) {
    IsNameStart(c) || IsDigitChar(c)
  }

  function LowerChar(c: char): char {
    if 'A' <= c <= 'Z' then (c as int + 32) as char else c
  }

  function Lower(s: string): string {
    seq(|s|, i requires 0 <= i < |s| => LowerChar(s[i]))
  }

  const KEYWORDS := {"true", "false", "null", "or", "and", "not"}

  /** A word that the tokenizer takes for an identifier. */
  predicate IsName(s: string) {
    |s| > 0 && IsNameStart(s[0]) && (forall k :: 0 <= k < |s| ==> IsNameChar(s[k])) && Lower(s) !in KEYWORDS
  }
}
