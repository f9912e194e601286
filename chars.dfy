/** Character classes of JavaScript regular expressions and of `parseInt`. */
module Chars {
  /** `\d`: the ASCII decimal digits only. */
  predicate IsDigit(c: char) { '0' <= c <= '9' }

  predicate IsLower(c: char) { 'a' <= c <= 'z' }

  predicate IsUpper(c: char) { 'A' <= c <= 'Z' }

  /** The line terminators, which `.` in a regular expression does not match. */
  predicate IsLineTerminator(c: char) {
    c == '\n' || c == '\r' || c == '\U{2028}' || c == '\U{2029}'
  }

  /** `\s`: ECMAScript white space and line terminators; also what `parseInt` skips. */
  predicate IsWhitespace(c: char) {
    || IsLineTerminator(c)
    || c == '\t' || c == '\U{000B}' || c == '\U{000C}' || c == ' '
    || c == '\U{00A0}' || c == '\U{1680}' || ('\U{2000}' <= c <= '\U{200A}')
    || c == '\U{202F}' || c == '\U{205F}' || c == '\U{3000}' || c == '\U{FEFF}'
  }

  /** The UTF-16 code units that encode `c`: two (a surrogate pair) above
      U+FFFF, one otherwise. */
  function CodeUnits(c: char): nat {
    if c >= '\U{10000}' then 2 else 1
  }

  /** JavaScript's `s.length`: the number of UTF-16 code units of `s`. */
  function Utf16Length(s: string): (n: nat)
    ensures |s| <= n <= 2 * |s|
  {
    if s == [] then 0 else CodeUnits(s[0]) + Utf16Length(s[1..])
  }

  /** A string of characters up to U+FFFF has one code unit per character. */
  lemma {:induction false} Utf16LengthOfBmp(s: string)
    requires forall k | 0 <= k < |s| :: s[k] < '\U{10000}'
    ensures Utf16Length(s) == |s|
  {
    if s != [] {
      assert forall k | 0 <= k < |s| - 1 :: s[1..][k] == s[k + 1];
      Utf16LengthOfBmp(s[1..]);
    }
  }

  /** A character above U+FFFF counts twice: "aA" and three U+1F600 have length 8. */
  lemma AstralCharsCountTwice()
    ensures |"aA\U{1F600}\U{1F600}\U{1F600}"| == 5
    ensures Utf16Length("aA\U{1F600}\U{1F600}\U{1F600}") == 8
  {
    var s := "aA\U{1F600}\U{1F600}\U{1F600}";
    assert s[1..] == "A\U{1F600}\U{1F600}\U{1F600}";
    assert s[2..] == "\U{1F600}\U{1F600}\U{1F600}";
    assert s[3..] == "\U{1F600}\U{1F600}";
    assert s[4..] == "\U{1F600}";
  }
}
