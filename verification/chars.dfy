/**
 * Character classes used by the regular expressions of the cleaner, the tokenizer,
 * the rule pre-filter and the metrics sanitiser. Only the classes that are spelled
 * out as explicit ranges in the program are defined here; the Unicode property
 * classes (`\p{Han}`, `\p{Emoji_Presentation}`, `[[:punct:]]`) are parameters of
 * the modules that use them.
 */
module Chars {

  /** The bracket class `[一-龯]`: code points U+4E00 through U+9FAF. */
  predicate IsCjk(c: char) {
    '\U{4E00}' <= c <= '\U{9FAF}'
  }

  predicate IsAsciiDigit(c: char) {
    '0' <= c <= '9'
  }

  predicate IsAsciiUpper(c: char) {
    'A' <= c <= 'Z'
  }

  predicate IsAsciiLetter(c: char) {
    'a' <= c <= 'z' || IsAsciiUpper(c)
  }

  /** The bracket class `[A-Za-z0-9]`. */
  predicate IsAsciiAlnum(c: char) {
    IsAsciiLetter(c) || IsAsciiDigit(c)
  }

  /** The cleaner's word class `[一-龯A-Za-z0-9]`. */
  predicate IsWordChar(c: char) {
    IsCjk(c) || IsAsciiAlnum(c)
  }

  /** Ruby's regular-expression `\s`: space, tab, line feed, vertical tab, form feed, carriage return. */
  predicate IsRegexSpace(c: char) {
    c == ' ' || c == '\t' || c == '\n' || c == '\U{000B}' || c == '\U{000C}' || c == '\r'
  }

  /** What `String#strip` removes at either end: NUL and the ASCII white space of `\s`. */
  predicate IsStripSpace(c: char) {
    c == '\0' || IsRegexSpace(c)
  }

  /** The POSIX class `[[:space:]]` on a Unicode string (the White_Space property), used by `blank?`. */
  predicate IsUnicodeSpace(c: char) {
    || IsRegexSpace(c)
    || c == '\U{0085}' || c == '\U{00A0}' || c == '\U{1680}'
    || ('\U{2000}' <= c <= '\U{200A}')
    || c == '\U{2028}' || c == '\U{2029}' || c == '\U{202F}' || c == '\U{205F}' || c == '\U{3000}'
  }

  /** The class `[a-zA-Z0-9_\-]` kept by the metrics label sanitiser. */
  predicate IsLabelChar(c: char) {
    IsAsciiAlnum(c) || c == '_' || c == '-'
  }

  /** ASCII case folding of one character, as `String#downcase` does for ASCII. */
  function Downcase(c: char): (r: char)
    ensures !IsAsciiUpper(r)
    ensures IsAsciiUpper(c) ==> IsAsciiLetter(r) && r as int == c as int + 32
    ensures !IsAsciiUpper(c) ==> r == c
  {
    if IsAsciiUpper(c) then (c as int + 32) as char else c
  }

  /** The decimal digit for `d`. */
  function DigitChar(d: nat): (c: char)
    requires d < 10
    ensures IsAsciiDigit(c) && c as int - '0' as int == d
  {
    ('0' as int + d) as char
  }
}
