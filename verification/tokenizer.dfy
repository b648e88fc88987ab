/**
 * `SpamClassifierService#tokenize`: clean the text, pre-tokenise it into runs of one
 * character class, split emoji runs into single characters and hand CJK runs to the
 * word segmenter, then drop blank, all-punctuation and all-numeral tokens and
 * lower-case the rest.
 */
module Tokenizer {
  import opened Chars
  import opened Strings
  import opened Wrappers
  import TextCleaner

  /**
   * The Unicode properties and the dictionary segmenter the tokenizer relies on:
   * `\p{Emoji_Presentation}`, `\p{Han}`, `[[:punct:]]` and `JIEBA.cut`.
   */
  datatype TokenizerEnv = TokenizerEnv(
    emoji: char -> bool,
    han: char -> bool,
    punct: char -> bool,
    segment: string -> seq<string>)

  /** Real `[[:punct:]]` contains no ASCII letter; the filter lemmas rely on that. */
  ghost predicate LettersAreNotPunct(env: TokenizerEnv) {
    forall c :: IsAsciiLetter(c) ==> !env.punct(c)
  }

  /** The extra CJK punctuation of the scan's fourth group: 。、，！？ */
  const ScanPunctExtra: string := "\U{3002}\U{3001}\U{FF0C}\U{FF01}\U{FF1F}"

  /** The extra punctuation of `pure_punctuation?`: 。、，！？；："'（）【】《》〈〉「」『』…—– */
  const FilterPunctExtra: string :=
    "\U{3002}\U{3001}\U{FF0C}\U{FF01}\U{FF1F}\U{FF1B}\U{FF1A}\"'\U{FF08}\U{FF09}\U{3010}\U{3011}"
    + "\U{300A}\U{300B}\U{3008}\U{3009}\U{300C}\U{300D}\U{300E}\U{300F}\U{2026}\U{2014}\U{2013}"

  /** The CJK numerals of `pure_numbers?`: 一二三四五六七八九十百千万亿零 */
  const CjkNumerals: string :=
    "\U{4E00}\U{4E8C}\U{4E09}\U{56DB}\U{4E94}\U{516D}\U{4E03}\U{516B}\U{4E5D}\U{5341}\U{767E}\U{5343}"
    + "\U{4E07}\U{4EBF}\U{96F6}"

  /** The class of the scan's fourth group, `[[:punct:]。、，！？]`. */
  function ScanPunct(env: TokenizerEnv): char -> bool {
    c => env.punct(c) || c in ScanPunctExtra
  }

  /** The class of `pure_punctuation?`. */
  function FilterPunct(env: TokenizerEnv): char -> bool {
    c => env.punct(c) || c in FilterPunctExtra
  }

  predicate IsNumeral(c: char) {
    IsAsciiDigit(c) || c in CjkNumerals
  }

  /** A character some group of the scan pattern can start with. */
  function SomeRun(env: TokenizerEnv): char -> bool {
    c => env.emoji(c) || env.han(c) || IsAsciiAlnum(c) || ScanPunct(env)(c)
  }

  /** A pre-token is a non-empty run of a single scan class. */
  predicate Homogeneous(env: TokenizerEnv, t: string) {
    t != [] && (All(t, env.emoji) || All(t, env.han) || All(t, IsAsciiAlnum) || All(t, ScanPunct(env)))
  }

  function Concat(ts: seq<string>): string {
    if ts == [] then [] else ts[0] + Concat(ts[1..])
  }

  lemma {:induction false} ConcatAppend(a: seq<string>, b: seq<string>)
    ensures Concat(a + b) == Concat(a) + Concat(b)
    decreases |a|
  {
    if a == [] {
      assert a + b == b;
    } else {
      assert (a + b)[1..] == a[1..] + b;
      ConcatAppend(a[1..], b);
      assert Concat(a + b) == a[0] + (Concat(a[1..]) + Concat(b));
    }
  }

  /**
   * `scan(/(\p{Emoji_Presentation}+)|(\p{Han}+)|([a-zA-Z0-9]+)|([[:punct:]。、，！？]+)/).flatten.compact`:
   * at each position the first alternative that matches takes its maximal run;
   * a character no alternative matches is skipped.
   */
  function PreTokens(env: TokenizerEnv, s: string): (r: seq<string>)
    ensures forall i :: 0 <= i < |r| ==> Homogeneous(env, r[i])
    decreases |s|
  {
    if s == [] then []
    else if env.emoji(s[0]) then
      var j := RunEnd(s, 0, env.emoji);
      [s[..j]] + PreTokens(env, s[j..])
    else if env.han(s[0]) then
      var j := RunEnd(s, 0, env.han);
      [s[..j]] + PreTokens(env, s[j..])
    else if IsAsciiAlnum(s[0]) then
      var j := RunEnd(s, 0, IsAsciiAlnum);
      [s[..j]] + PreTokens(env, s[j..])
    else if ScanPunct(env)(s[0]) then
      var j := RunEnd(s, 0, ScanPunct(env));
      [s[..j]] + PreTokens(env, s[j..])
    else PreTokens(env, s[1..])
  }

  /** A run taken whole by the scan contributes itself, and `Filter` keeps all of it. */
  lemma RunFilter(env: TokenizerEnv, s: string, j: nat, p: char -> bool)
    requires j <= |s| && forall k :: 0 <= k < j ==> p(s[k])
    requires forall c :: p(c) ==> SomeRun(env)(c)
    ensures Filter(s, SomeRun(env)) == s[..j] + Filter(s[j..], SomeRun(env))
  {
    PrefixFilter(s, j, SomeRun(env));
  }

  lemma PrefixFilter(s: string, j: nat, q: char -> bool)
    requires j <= |s| && forall k :: 0 <= k < j ==> q(s[k])
    ensures Filter(s, q) == s[..j] + Filter(s[j..], q)
  {
    assert All(s[..j], q) by {
      forall k | 0 <= k < j ensures q(s[..j][k]) {
        assert s[..j][k] == s[k];
      }
    }
    assert s == s[..j] + s[j..];
    FilterConcat(s[..j], s[j..], q);
    FilterAll(s[..j], q);
  }

  /** The scan keeps exactly the characters some group can match, in order. */
  lemma {:induction false} PreTokensKeep(env: TokenizerEnv, s: string)
    ensures Concat(PreTokens(env, s)) == Filter(s, SomeRun(env))
    decreases |s|
  {
    var q := SomeRun(env);
    if s != [] {
      if env.emoji(s[0]) {
        var j := RunEnd(s, 0, env.emoji);
        PreTokensKeep(env, s[j..]);
        RunFilter(env, s, j, env.emoji);
      } else if env.han(s[0]) {
        var j := RunEnd(s, 0, env.han);
        PreTokensKeep(env, s[j..]);
        RunFilter(env, s, j, env.han);
      } else if IsAsciiAlnum(s[0]) {
        var j := RunEnd(s, 0, IsAsciiAlnum);
        PreTokensKeep(env, s[j..]);
        RunFilter(env, s, j, IsAsciiAlnum);
      } else if ScanPunct(env)(s[0]) {
        var j := RunEnd(s, 0, ScanPunct(env));
        PreTokensKeep(env, s[j..]);
        RunFilter(env, s, j, ScanPunct(env));
      } else {
        PreTokensKeep(env, s[1..]);
        assert s == [s[0]] + s[1..];
        FilterConcat([s[0]], s[1..], q);
      }
    }
  }

  /** `token.chars`. */
  function CharTokens(t: string): (r: seq<string>)
    ensures |r| == |t|
    ensures forall i :: 0 <= i < |t| ==> r[i] == [t[i]]
  {
    seq(|t|, i requires 0 <= i < |t| => [t[i]])
  }

  predicate HasAny(t: string, p: char -> bool) {
    exists i :: 0 <= i < |t| && p(t[i])
  }

  /**
   * The `flat_map` body: a token with an emoji becomes one token per character, a
   * token with a CJK character goes to the segmenter, any other token stays whole.
   */
  function Expand(env: TokenizerEnv, t: string): (r: seq<string>)
    ensures HasAny(t, env.emoji) ==> |r| == |t| && forall i :: 0 <= i < |t| ==> r[i] == [t[i]]
    ensures !HasAny(t, env.emoji) && HasAny(t, env.han) ==> r == env.segment(t)
    ensures !HasAny(t, env.emoji) && !HasAny(t, env.han) ==> r == [t]
  {
    if HasAny(t, env.emoji) then CharTokens(t)
    else if HasAny(t, env.han) then env.segment(t)
    else [t]
  }

  function ExpandAll(env: TokenizerEnv, ts: seq<string>): seq<string> {
    if ts == [] then [] else Expand(env, ts[0]) + ExpandAll(env, ts[1..])
  }

  /** An alphanumeric or punctuation pre-token (no emoji, no CJK) passes through the expansion whole. */
  lemma {:induction false} ExpandAllPlain(env: TokenizerEnv, ts: seq<string>)
    requires forall i :: 0 <= i < |ts| ==> !HasAny(ts[i], env.emoji) && !HasAny(ts[i], env.han)
    ensures ExpandAll(env, ts) == ts
    decreases |ts|
  {
    if ts != [] {
      ExpandAllPlain(env, ts[1..]);
      assert ts == [ts[0]] + ts[1..];
    }
  }

  // ---------------------------------------------------------------------------
  // The filter stage
  // ---------------------------------------------------------------------------

  /** `t[i..j]` is a whole line of `t`: where `^` and `$` can match around it. */
  predicate LineSpan(t: string, i: int, j: int) {
    0 <= i < j <= |t| && (i == 0 || t[i - 1] == '\n') && (j == |t| || t[j] == '\n')
  }

  /** `t.match?(/^[P]+$/)`: some non-empty line of `t` consists of `P` characters only. */
  predicate LineOf(t: string, p: char -> bool) {
    exists i, j | 0 <= i < j <= |t| :: LineSpan(t, i, j) && All(t[i..j], p)
  }

  /** Without line breaks the anchored match is simply "non-empty and entirely `P`". */
  lemma LineOfSingleLine(t: string, p: char -> bool)
    requires forall k :: 0 <= k < |t| ==> t[k] != '\n'
    ensures LineOf(t, p) <==> t != [] && All(t, p)
  {
    if LineOf(t, p) {
      var i, j :| 0 <= i < j <= |t| && LineSpan(t, i, j) && All(t[i..j], p);
      assert i == 0 && j == |t|;
      assert t[i..j] == t;
    }
    if t != [] && All(t, p) {
      assert t[0..|t|] == t;
      assert LineSpan(t, 0, |t|);
    }
  }

  /** `pure_punctuation?`. */
  predicate PurePunctuation(env: TokenizerEnv, t: string) {
    LineOf(t, FilterPunct(env))
  }

  /** `pure_numbers?`. */
  predicate PureNumbers(t: string) {
    LineOf(t, IsNumeral)
  }

  predicate Keep(env: TokenizerEnv, t: string) {
    !IsBlank(t) && !PurePunctuation(env, t) && !PureNumbers(t)
  }

  /** The three `reject` calls, in order. */
  function KeepAll(env: TokenizerEnv, ts: seq<string>): (r: seq<string>)
    ensures forall i :: 0 <= i < |r| ==> Keep(env, r[i])
    ensures forall t :: t in r <==> t in ts && Keep(env, t)
    ensures forall t :: multiset(r)[t] == if Keep(env, t) then multiset(ts)[t] else 0
    ensures IsSubseq(r, ts)
    ensures |r| <= |ts|
  {
    if ts == [] then []
    else
      var rest := KeepAll(env, ts[1..]);
      assert ts == [ts[0]] + ts[1..];
      if Keep(env, ts[0]) then
        SubseqCons(ts[0], rest, ts[1..]);
        [ts[0]] + rest
      else
        SubseqSkip(rest, ts);
        rest
  }

  /** `String#downcase` on the ASCII letters. */
  function DowncaseStr(t: string): (r: string)
    ensures |r| == |t|
    ensures forall k :: 0 <= k < |t| ==> r[k] == Downcase(t[k])
  {
    seq(|t|, k requires 0 <= k < |t| => Downcase(t[k]))
  }

  function DowncaseAll(ts: seq<string>): (r: seq<string>)
    ensures |r| == |ts|
    ensures forall i :: 0 <= i < |ts| ==> r[i] == DowncaseStr(ts[i])
  {
    seq(|ts|, i requires 0 <= i < |ts| => DowncaseStr(ts[i]))
  }

  /** Lower-casing keeps line breaks where they are and keeps any class that ignores case. */
  lemma LineOfDowncase(t: string, p: char -> bool)
    requires forall c :: p(c) <==> p(Downcase(c))
    ensures LineOf(DowncaseStr(t), p) <==> LineOf(t, p)
  {
    var d := DowncaseStr(t);
    forall k | 0 <= k < |t| ensures (d[k] == '\n') == (t[k] == '\n') && (p(d[k]) == p(t[k])) {
    }
    if LineOf(t, p) {
      var i, j :| 0 <= i < j <= |t| && LineSpan(t, i, j) && All(t[i..j], p);
      assert LineSpan(d, i, j);
      assert All(d[i..j], p) by {
        forall k | 0 <= k < j - i ensures p(d[i..j][k]) {
          assert d[i..j][k] == d[i + k] && t[i..j][k] == t[i + k];
        }
      }
    }
    if LineOf(d, p) {
      var i, j :| 0 <= i < j <= |d| && LineSpan(d, i, j) && All(d[i..j], p);
      assert LineSpan(t, i, j);
      assert All(t[i..j], p) by {
        forall k | 0 <= k < j - i ensures p(t[i..j][k]) {
          assert d[i..j][k] == d[i + k] && t[i..j][k] == t[i + k];
        }
      }
    }
  }

  lemma BlankDowncase(t: string)
    ensures IsBlank(DowncaseStr(t)) <==> IsBlank(t)
  {
    var d := DowncaseStr(t);
    forall k | 0 <= k < |t| ensures IsUnicodeSpace(d[k]) == IsUnicodeSpace(t[k]) {}
  }

  lemma CaselessClasses(env: TokenizerEnv)
    requires LettersAreNotPunct(env)
    ensures forall c :: IsNumeral(c) <==> IsNumeral(Downcase(c))
    ensures forall c :: FilterPunct(env)(c) <==> FilterPunct(env)(Downcase(c))
  {
    forall c | IsAsciiUpper(c)
      ensures !IsNumeral(c) && !IsNumeral(Downcase(c)) && !FilterPunct(env)(c) && !FilterPunct(env)(Downcase(c))
    {
      LetterNotListed(c);
      LetterNotListed(Downcase(c));
    }
  }

  /** No ASCII letter is among the CJK numerals or the extra punctuation. */
  lemma LetterNotListed(c: char)
    requires IsAsciiLetter(c)
    ensures c !in CjkNumerals && c !in FilterPunctExtra
  {
    assert c !in CjkNumerals;
  }

  /** A kept token is still kept once lower-cased. */
  lemma KeepDowncase(env: TokenizerEnv, t: string)
    requires LettersAreNotPunct(env)
    ensures Keep(env, DowncaseStr(t)) <==> Keep(env, t)
  {
    BlankDowncase(t);
    CaselessClasses(env);
    LineOfDowncase(t, IsNumeral);
    LineOfDowncase(t, FilterPunct(env));
  }

  /**
   * `tokenize`: clean, scan, expand, drop blank / all-punctuation / all-numeral
   * tokens, lower-case.
   */
  function Tokenize(env: TokenizerEnv, text: Option<string>): (r: seq<string>)
    ensures forall i :: 0 <= i < |r| ==> forall k :: 0 <= k < |r[i]| ==> !IsAsciiUpper(r[i][k])
  {
    var pre := PreTokens(env, TextCleaner.CleanText(text));
    DowncaseAll(KeepAll(env, ExpandAll(env, pre)))
  }

  /**
   * Every token `tokenize` returns is non-blank, not made of punctuation only and not
   * made of numerals only (Arabic or CJK).
   */
  lemma TokenizeFiltered(env: TokenizerEnv, text: Option<string>)
    requires LettersAreNotPunct(env)
    ensures forall t :: t in Tokenize(env, text) ==>
              !IsBlank(t) && !PurePunctuation(env, t) && !PureNumbers(t)
  {
    var kept := KeepAll(env, ExpandAll(env, PreTokens(env, TextCleaner.CleanText(text))));
    forall i | 0 <= i < |kept| ensures Keep(env, DowncaseStr(kept[i])) {
      KeepDowncase(env, kept[i]);
    }
  }
}
