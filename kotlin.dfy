/**
 * The few pieces of the Kotlin standard library that the build logic and the
 * theme rely on: nullable values, the ASCII character classes behind the
 * regular expression `\W`, and `String.lowercase()` on ASCII text.
 */
module Kotlin {

  /** A Kotlin nullable value `T?`: `None` stands for `null`. */
  datatype Option<+T> = None | Some(value: T)

  /** `\w` in a Java/Kotlin regular expression without the Unicode flag: `[a-zA-Z_0-9]`. */
  predicate IsWordChar(c: char) {
    ('a' <= c <= 'z') || ('A' <= c <= 'Z') || ('0' <= c <= '9') || c == '_'
  }

  predicate IsUpper(c: char) {
    'A' <= c <= 'Z'
  }

  /** A character that can appear in lower-cased word text: `[a-z0-9_]`. */
  predicate IsLowerWordChar(c: char) {
    ('a' <= c <= 'z') || ('0' <= c <= '9') || c == '_'
  }

  predicate AllWordChars(s: string) {
    forall i :: 0 <= i < |s| ==> IsWordChar(s[i])
  }

  predicate AllLowerWordChars(s: string) {
    forall i :: 0 <= i < |s| ==> IsLowerWordChar(s[i])
  }

  /** Lower-casing of one character, on the ASCII range. */
  function LowerChar(c: char): (d: char)
    ensures IsUpper(c) ==> 'a' <= d <= 'z' && d as int - 'a' as int == c as int - 'A' as int
    ensures !IsUpper(c) ==> d == c
    ensures !IsUpper(d)
    ensures IsWordChar(c) ==> IsLowerWordChar(d)
  {
    if IsUpper(c) then (c as int + 32) as char else c
  }

  /** `String.lowercase()`, as the ASCII mapping. */
  function Lowercase(s: string): (r: string)
    ensures |r| == |s|
    ensures forall i :: 0 <= i < |r| ==> !IsUpper(r[i])
  {
    seq(|s|, i requires 0 <= i < |s| => LowerChar(s[i]))
  }

  /** Lower-casing word text gives lower-case word text. */
  lemma LowercaseOfWords(s: string)
    requires AllWordChars(s)
    ensures AllLowerWordChars(Lowercase(s))
  {
  }

  /** Text that is already lower-case word text is left as it is. */
  lemma LowercaseOfLowerWords(s: string)
    requires AllLowerWordChars(s)
    ensures Lowercase(s) == s
  {
  }
}
