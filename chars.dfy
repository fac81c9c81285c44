/** The character classes the tokenizers use, restricted to ASCII. All three
    classifiers reject the sentinel '\0' that `peek` returns past the end of the
    input, which is how every run-based tokenizer detects the end. */
module Chars {

  predicate IsLetter(ch: char) {
    'a' <= ch <= 'z' || 'A' <= ch <= 'Z'
  }

  predicate IsDigit(ch: char) {
    '0' <= ch <= '9'
  }

  /** Space, tab, line feed, vertical tab, form feed and carriage return. */
  predicate IsWhiteSpace(ch: char) {
    ch == ' ' || ch == '\t' || ch == '\n' || ch == '\U{000B}' || ch == '\U{000C}' || ch == '\r'
  }

  /** An upper-case ASCII letter becomes the lower-case one 32 code points
      above it; every other character is kept. */
  function LowerChar(ch: char): (r: char)
    ensures 'A' <= ch <= 'Z' ==> r as int == ch as int + 32
    ensures !('A' <= ch <= 'Z') ==> r == ch
    ensures IsLetter(ch) <==> IsLetter(r) && 'a' <= r
  {
    if 'A' <= ch <= 'Z' then (ch as int - 'A' as int + 'a' as int) as char else ch
  }

  /** String.ToLower on ASCII text. */
  function ToLower(s: string): (r: string)
    ensures |r| == |s|
    ensures forall i | 0 <= i < |s| :: r[i] == LowerChar(s[i])
  {
    seq(|s|, i requires 0 <= i < |s| => LowerChar(s[i]))
  }

  /** Lower-casing matches a word with no upper-case letters exactly when the
      text agrees with it letter by letter, up to upper case, and lower-casing
      twice changes nothing. */
  lemma ToLowerMatches(s: string, w: string)
    requires forall i | 0 <= i < |w| :: !('A' <= w[i] <= 'Z')
    ensures ToLower(s) == w <==>
      |s| == |w| && forall i | 0 <= i < |s| ::
        s[i] == w[i] || ('a' <= w[i] <= 'z' && s[i] as int == w[i] as int - 32)
    ensures ToLower(ToLower(s)) == ToLower(s)
  {
  }

  lemma SentinelIsNoClass()
    ensures !IsLetter('\0') && !IsDigit('\0') && !IsWhiteSpace('\0')
  {
  }
}
