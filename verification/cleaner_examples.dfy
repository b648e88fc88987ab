/**
 * The cleaner on the separator-obfuscated spam phrases of
 * `test/lib/text_cleaner_test.rb`, worked pass by pass, together with the
 * general facts that make the steps with nothing to do leave the text alone.
 */
module CleanerExamples {
  import opened Chars
  import opened Strings
  import opened Wrappers
  import opened TextCleaner

  // ---------------------------------------------------------------------------
  // Steps with nothing to do
  // ---------------------------------------------------------------------------

  /** Without a single gap character there is no run to collapse, so the loop stops at once. */
  lemma NoGapIsFixpoint(s: string, edge: char -> bool, gap: char -> bool)
    requires forall k :: 0 <= k < |s| ==> !gap(s[k])
    ensures Fixpoint(s, edge, gap) == s
  {
    forall i, j ensures !FlankedRunAt(s, i, j, edge, gap) {
      if 0 <= i && i + 1 < j < |s| {
        assert !gap(s[i + 1]);
      }
    }
    NoFlankedRunIsFixpoint(s, edge, gap);
  }

  /** Without a `left` character followed by a `right` character, the pass inserts nothing. */
  lemma {:induction false} NoPairInsertsNothing(s: string, left: char -> bool, right: char -> bool)
    requires forall k :: 0 <= k < |s| - 1 ==> !(left(s[k]) && right(s[k + 1]))
    ensures InsertSpaces(s, left, right) == s
    decreases |s|
  {
    if |s| >= 2 {
      NoPairInsertsNothing(s[1..], left, right);
      assert s == [s[0]] + s[1..];
    }
  }

  /** Text that is already single-spaced is what `gsub(/\s+/, " ")` leaves it. */
  lemma {:induction false} SingleSpacedIsSquashed(s: string)
    requires SingleSpaced(s)
    ensures SquashSpaces(s) == s
    decreases |s|
  {
    if s != [] {
      assert SingleSpaced(s[1..]) by {
        forall i | 0 <= i < |s[1..]| && IsRegexSpace(s[1..][i])
          ensures s[1..][i] == ' ' && (i + 1 < |s[1..]| ==> !IsRegexSpace(s[1..][i + 1]))
        {
          assert s[1..][i] == s[i + 1];
        }
      }
      SingleSpacedIsSquashed(s[1..]);
      if IsRegexSpace(s[0]) {
        RunEndIs(s, 0, IsRegexSpace, 1);
      }
      assert s == [s[0]] + s[1..];
    }
  }

  /** Step 4 is idempotent: text in its output form comes back unchanged. */
  lemma NormalizedIsFixed(s: string)
    requires SingleSpaced(s)
    requires s != [] ==> !IsStripSpace(s[0]) && !IsStripSpace(s[|s| - 1])
    ensures NormalizeSpaces(s) == s
  {
    SingleSpacedIsSquashed(s);
    if s != [] {
      assert StripStart(s, 0) == 0;
      assert StripEnd(s, 0, |s|) == |s|;
    }
  }

  /** Text without a line feed that does not open with `#` has no `#FOUND` prefix to drop. */
  lemma NoFoundPrefix(s: string)
    requires '\n' !in s
    requires s != [] ==> s[0] != '#'
    ensures ExtractFoundMessage(s) == s
  {
    if s != [] {
      assert Lit(s, 0, "#FOUND").None? by {
        if 6 <= |s| {
          assert s[0..6][0] == s[0];
        }
      }
      NoCaptureAfterStart(s, 1);
    }
  }

  /** On one line, `^` matches only at the start. */
  lemma {:induction false} NoCaptureAfterStart(s: string, p: nat)
    requires 0 < p <= |s|
    requires '\n' !in s
    ensures FirstFoundCapture(s, p).None?
    decreases |s| - p
  {
    assert s[p - 1] in s;
    if p < |s| {
      NoCaptureAfterStart(s, p + 1);
    }
  }

  /**
   * `clean` on one line of text that needs no stripping, has no `#FOUND` prefix
   * and keeps no white space through step 1: step 1's result with step 3's
   * spaces added.
   */
  lemma CleanOfOneLine(t: string, s1: string, s3: string)
    requires t != [] && !IsStripSpace(t[0]) && !IsStripSpace(t[|t| - 1]) && t[0] != '#'
    requires '\n' !in t
    requires RemoveSeparators(t) == s1
    requires forall k :: 0 <= k < |s1| ==> !IsRegexSpace(s1[k])
    requires AddTokenizationSpaces(s1) == s3
    requires SingleSpaced(s3) && (s3 != [] ==> !IsStripSpace(s3[0]) && !IsStripSpace(s3[|s3| - 1]))
    ensures Clean(Some(t)) == s3
  {
    assert StripStart(t, 0) == 0;
    assert StripEnd(t, 0, |t|) == |t|;
    assert Strip(t) == t;
    NoFoundPrefix(t);
    NoGapIsFixpoint(s1, IsCjk, IsRegexSpace);
    NormalizedIsFixed(s3);
  }

  /** No CJK character next to an ASCII letter or digit, in either order: step 3 has nothing to do. */
  lemma NoBoundaryAddsNothing(s: string)
    requires forall k :: 0 <= k < |s| ==> !IsAsciiAlnum(s[k])
    ensures AddTokenizationSpaces(s) == s
  {
    NoPairInsertsNothing(s, IsCjk, IsAsciiAlnum);
    NoPairInsertsNothing(s, IsAsciiAlnum, IsCjk);
  }

  /** Every character of `s` is a CJK ideograph. */
  predicate AllCjk(s: string) {
    forall k :: 0 <= k < |s| ==> IsCjk(s[k])
  }

  /** A run of CJK ideographs holds no ASCII letter, digit or white space, and has no character `strip` or `#FOUND` would act on at its ends. */
  lemma CjkRunIsPlain(s: string)
    requires AllCjk(s)
    ensures forall k :: 0 <= k < |s| ==> !IsAsciiAlnum(s[k]) && !IsRegexSpace(s[k]) && !IsSeparator(s[k])
    ensures SingleSpaced(s)
    ensures s != [] ==> !IsStripSpace(s[0]) && !IsStripSpace(s[|s| - 1]) && s[0] != '#'
  {
  }

  // ---------------------------------------------------------------------------
  // One pass, one position at a time. The phrases below are parameters fixed by
  // a `requires`, so that the solver unfolds the pass only where it is asked to.
  // ---------------------------------------------------------------------------

  /** An edge character, one gap character and another edge character: the pass keeps the two edges and resumes after them. */
  lemma PassJoins(s: string, edge: char -> bool, gap: char -> bool)
    requires 2 < |s| && edge(s[0]) && gap(s[1]) && edge(s[2]) && !gap(s[2])
    ensures CollapsePass(s, edge, gap) == [s[0], s[2]] + CollapsePass(s[3..], edge, gap)
  {
    RunEndIs(s, 1, gap, 2);
  }

  /** A character that does not start a flanked run is kept, and the pass moves one position on. */
  lemma PassKeeps(s: string, edge: char -> bool, gap: char -> bool)
    requires s != []
    requires !edge(s[0]) || |s| == 1 || !gap(s[1])
    ensures CollapsePass(s, edge, gap) == [s[0]] + CollapsePass(s[1..], edge, gap)
  {
    if |s| > 1 && !gap(s[1]) {
      RunEndIs(s, 1, gap, 1);
    }
  }

  /** A pass over text with no gap character keeps all of it. */
  lemma PassKeepsAll(s: string, edge: char -> bool, gap: char -> bool)
    requires forall k :: 0 <= k < |s| ==> !gap(s[k])
    ensures CollapsePass(s, edge, gap) == s
  {
    NoGapIsFixpoint(s, edge, gap);
  }

  /** Two passes that change the text and a third that does not: the loop's result. */
  lemma ThreePasses(s: string, t: string, u: string, edge: char -> bool, gap: char -> bool)
    requires CollapsePass(s, edge, gap) == t && t != s
    requires CollapsePass(t, edge, gap) == u && u != t
    requires forall k :: 0 <= k < |u| ==> !gap(u[k])
    ensures Fixpoint(s, edge, gap) == u
  {
    NoGapIsFixpoint(u, edge, gap);
  }

  /**
   * `clean` on one line whose separators two passes of step 1 remove, leaving
   * no white space: step 3's spaces added to the result of those two passes.
   */
  lemma CleanOfTwoPasses(t: string, t1: string, u: string, v: string)
    requires t != [] && !IsStripSpace(t[0]) && !IsStripSpace(t[|t| - 1]) && t[0] != '#'
    requires '\n' !in t
    requires CollapsePass(t, IsWordChar, IsSeparator) == t1 && t1 != t
    requires CollapsePass(t1, IsWordChar, IsSeparator) == u && u != t1
    requires forall k :: 0 <= k < |u| ==> !IsRegexSpace(u[k]) && !IsSeparator(u[k])
    requires AddTokenizationSpaces(u) == v
    requires SingleSpaced(v) && (v != [] ==> !IsStripSpace(v[0]) && !IsStripSpace(v[|v| - 1]))
    ensures Clean(Some(t)) == v
  {
    ThreePasses(t, t1, u, IsWordChar, IsSeparator);
    CleanOfOneLine(t, u, v);
  }

  /**
   * `clean` on one line whose separators two passes of step 1 remove, leaving
   * only CJK ideographs: the result of those two passes.
   */
  lemma CleanToCjk(t: string, t1: string, u: string)
    requires t != [] && !IsStripSpace(t[0]) && !IsStripSpace(t[|t| - 1]) && t[0] != '#'
    requires '\n' !in t
    requires CollapsePass(t, IsWordChar, IsSeparator) == t1 && t1 != t
    requires CollapsePass(t1, IsWordChar, IsSeparator) == u && u != t1
    requires AllCjk(u)
    ensures Clean(Some(t)) == u
  {
    CjkRunIsPlain(u);
    NoBoundaryAddsNothing(u);
    CleanOfTwoPasses(t, t1, u, u);
  }

  // ---------------------------------------------------------------------------
  // "联,系,我,们" becomes "联系我们"
  // ---------------------------------------------------------------------------

  lemma CommaFirstPass(s: string)
    requires s == "联,系,我,们"
    ensures CollapsePass(s, IsWordChar, IsSeparator) == "联系,我们"
  {
    var t := s[3..];
    var u := t[1..];
    assert t == ",我,们" && u == "我,们" && u[3..] == [];
    PassJoins(s, IsWordChar, IsSeparator);
    PassKeeps(t, IsWordChar, IsSeparator);
    PassJoins(u, IsWordChar, IsSeparator);
  }

  lemma CommaSecondPass(s: string)
    requires s == "联系,我们"
    ensures CollapsePass(s, IsWordChar, IsSeparator) == "联系我们"
  {
    var t := s[1..];
    assert t == "系,我们" && t[3..] == "们";
    PassKeeps(s, IsWordChar, IsSeparator);
    PassJoins(t, IsWordChar, IsSeparator);
    PassKeepsAll(t[3..], IsWordChar, IsSeparator);
  }

  lemma CleanCommaSeparated(t: string)
    requires t == "联,系,我,们"
    ensures Clean(Some(t)) == "联系我们"
  {
    var t1 := CollapsePass(t, IsWordChar, IsSeparator);
    CommaFirstPass(t);
    var u := CollapsePass(t1, IsWordChar, IsSeparator);
    CommaSecondPass(t1);
    CommaFacts(t, u);
    CleanToCjk(t, t1, u);
  }

  /** The side conditions of `CleanToCjk` for this phrase. */
  lemma CommaFacts(t: string, u: string)
    requires t == "联,系,我,们" && u == "联系我们"
    ensures t != [] && !IsStripSpace(t[0]) && !IsStripSpace(t[|t| - 1]) && t[0] != '#'
    ensures '\n' !in t
    ensures AllCjk(u)
  {
  }

  // ---------------------------------------------------------------------------
  // "稳.赚.不.亏.的" becomes "稳赚不亏的"
  // ---------------------------------------------------------------------------

  lemma DottedFirstPassTail(t: string)
    requires t == ".不.亏.的"
    ensures CollapsePass(t, IsWordChar, IsSeparator) == ".不亏.的"
  {
    var u := t[1..];
    var v := u[3..];
    assert u == "不.亏.的" && v == ".的" && v[1..] == "的";
    PassKeeps(t, IsWordChar, IsSeparator);
    PassJoins(u, IsWordChar, IsSeparator);
    PassKeeps(v, IsWordChar, IsSeparator);
    PassKeepsAll(v[1..], IsWordChar, IsSeparator);
  }

  lemma DottedFirstPass(s: string)
    requires s == "稳.赚.不.亏.的"
    ensures CollapsePass(s, IsWordChar, IsSeparator) == "稳赚.不亏.的"
  {
    assert s[3..] == ".不.亏.的";
    PassJoins(s, IsWordChar, IsSeparator);
    DottedFirstPassTail(s[3..]);
  }

  lemma DottedSecondPassTail(t: string)
    requires t == "赚.不亏.的"
    ensures CollapsePass(t, IsWordChar, IsSeparator) == "赚不亏的"
  {
    var u := t[3..];
    assert u == "亏.的" && u[3..] == [];
    PassJoins(t, IsWordChar, IsSeparator);
    PassJoins(u, IsWordChar, IsSeparator);
  }

  lemma DottedSecondPass(s: string)
    requires s == "稳赚.不亏.的"
    ensures CollapsePass(s, IsWordChar, IsSeparator) == "稳赚不亏的"
  {
    assert s[1..] == "赚.不亏.的";
    PassKeeps(s, IsWordChar, IsSeparator);
    DottedSecondPassTail(s[1..]);
  }

  lemma CleanDotted(t: string)
    requires t == "稳.赚.不.亏.的"
    ensures Clean(Some(t)) == "稳赚不亏的"
  {
    var t1 := CollapsePass(t, IsWordChar, IsSeparator);
    DottedFirstPass(t);
    var u := CollapsePass(t1, IsWordChar, IsSeparator);
    DottedSecondPass(t1);
    DottedFacts(t, u);
    CleanToCjk(t, t1, u);
  }

  /** The side conditions of `CleanToCjk` for this phrase. */
  lemma DottedFacts(t: string, u: string)
    requires t == "稳.赚.不.亏.的" && u == "稳赚不亏的"
    ensures t != [] && !IsStripSpace(t[0]) && !IsStripSpace(t[|t| - 1]) && t[0] != '#'
    ensures '\n' !in t
    ensures AllCjk(u)
  {
  }

  // ---------------------------------------------------------------------------
  // "合-约*报@单群组" becomes "合约报单群组"
  // ---------------------------------------------------------------------------

  lemma MixedFirstPassRest(u: string)
    requires u == "报@单群组"
    ensures CollapsePass(u, IsWordChar, IsSeparator) == "报单群组"
  {
    assert u[3..] == "群组";
    PassJoins(u, IsWordChar, IsSeparator);
    PassKeepsAll(u[3..], IsWordChar, IsSeparator);
  }

  lemma MixedFirstPassTail(t: string)
    requires t == "*报@单群组"
    ensures CollapsePass(t, IsWordChar, IsSeparator) == "*报单群组"
  {
    assert t[1..] == "报@单群组";
    PassKeeps(t, IsWordChar, IsSeparator);
    MixedFirstPassRest(t[1..]);
  }

  lemma MixedFirstPass(s: string)
    requires s == "合-约*报@单群组"
    ensures CollapsePass(s, IsWordChar, IsSeparator) == "合约*报单群组"
  {
    assert s[3..] == "*报@单群组";
    PassJoins(s, IsWordChar, IsSeparator);
    MixedFirstPassTail(s[3..]);
  }

  lemma MixedSecondPassTail(t: string)
    requires t == "约*报单群组"
    ensures CollapsePass(t, IsWordChar, IsSeparator) == "约报单群组"
  {
    assert t[3..] == "单群组";
    PassJoins(t, IsWordChar, IsSeparator);
    PassKeepsAll(t[3..], IsWordChar, IsSeparator);
  }

  lemma MixedSecondPass(s: string)
    requires s == "合约*报单群组"
    ensures CollapsePass(s, IsWordChar, IsSeparator) == "合约报单群组"
  {
    assert s[1..] == "约*报单群组";
    PassKeeps(s, IsWordChar, IsSeparator);
    MixedSecondPassTail(s[1..]);
  }

  lemma CleanMixedSeparators(t: string)
    requires t == "合-约*报@单群组"
    ensures Clean(Some(t)) == "合约报单群组"
  {
    var t1 := CollapsePass(t, IsWordChar, IsSeparator);
    MixedFirstPass(t);
    var u := CollapsePass(t1, IsWordChar, IsSeparator);
    MixedSecondPass(t1);
    MixedFacts(t, u);
    CleanToCjk(t, t1, u);
  }

  /** The side conditions of `CleanToCjk` for this phrase. */
  lemma MixedFacts(t: string, u: string)
    requires t == "合-约*报@单群组" && u == "合约报单群组"
    ensures t != [] && !IsStripSpace(t[0]) && !IsStripSpace(t[|t| - 1]) && t[0] != '#'
    ensures '\n' !in t
    ensures AllCjk(u)
  {
  }

  // ---------------------------------------------------------------------------
  // "B#T@C$500点" becomes "BTC500 点"
  // ---------------------------------------------------------------------------

  lemma TickerFirstPassRest(u: string)
    requires u == "C$500点"
    ensures CollapsePass(u, IsWordChar, IsSeparator) == "C500点"
  {
    assert u[3..] == "00点";
    PassJoins(u, IsWordChar, IsSeparator);
    PassKeepsAll(u[3..], IsWordChar, IsSeparator);
  }

  lemma TickerFirstPassTail(t: string)
    requires t == "@C$500点"
    ensures CollapsePass(t, IsWordChar, IsSeparator) == "@C500点"
  {
    assert t[1..] == "C$500点";
    PassKeeps(t, IsWordChar, IsSeparator);
    TickerFirstPassRest(t[1..]);
  }

  lemma TickerFirstPass(s: string)
    requires s == "B#T@C$500点"
    ensures CollapsePass(s, IsWordChar, IsSeparator) == "BT@C500点"
  {
    assert s[3..] == "@C$500点";
    PassJoins(s, IsWordChar, IsSeparator);
    TickerFirstPassTail(s[3..]);
  }

  lemma TickerSecondPassTail(t: string)
    requires t == "T@C500点"
    ensures CollapsePass(t, IsWordChar, IsSeparator) == "TC500点"
  {
    assert t[3..] == "500点";
    PassJoins(t, IsWordChar, IsSeparator);
    PassKeepsAll(t[3..], IsWordChar, IsSeparator);
  }

  lemma TickerSecondPass(s: string)
    requires s == "BT@C500点"
    ensures CollapsePass(s, IsWordChar, IsSeparator) == "BTC500点"
  {
    assert s[1..] == "T@C500点";
    PassKeeps(s, IsWordChar, IsSeparator);
    TickerSecondPassTail(s[1..]);
  }

  /** Where a `left` character is not followed by a `right` one, the pass keeps it and moves one position on. */
  lemma InsertKeeps(s: string, left: char -> bool, right: char -> bool)
    requires |s| >= 2 && !(left(s[0]) && right(s[1]))
    ensures InsertSpaces(s, left, right) == [s[0]] + InsertSpaces(s[1..], left, right)
  {
  }

  /** The second half of step 3 on the price: a space only between the last digit and the unit. */
  lemma TickerPriceSpaced(s: string)
    requires s == "500点"
    ensures InsertSpaces(s, IsAsciiAlnum, IsCjk) == "500 点"
  {
    InsertKeeps(s, IsAsciiAlnum, IsCjk);
    InsertKeeps(s[1..], IsAsciiAlnum, IsCjk);
    assert s[1..][1..] == s[2..];
    assert s[2..][2..] == [];
  }

  /** The second half of step 3 on the whole phrase: the letters and digits are left together. */
  lemma TickerDigitsSpaced(s: string)
    requires s == "BTC500点"
    ensures InsertSpaces(s, IsAsciiAlnum, IsCjk) == "BTC500 点"
  {
    InsertKeeps(s, IsAsciiAlnum, IsCjk);
    InsertKeeps(s[1..], IsAsciiAlnum, IsCjk);
    InsertKeeps(s[2..], IsAsciiAlnum, IsCjk);
    assert s[1..][1..] == s[2..] && s[2..][1..] == s[3..] && s[3..] == "500点";
    TickerPriceSpaced(s[3..]);
  }

  /** Step 3 separates the price from the CJK unit that follows it. */
  lemma TickerSpaced(s: string)
    requires s == "BTC500点"
    ensures AddTokenizationSpaces(s) == "BTC500 点"
  {
    NoPairInsertsNothing(s, IsCjk, IsAsciiAlnum);
    TickerDigitsSpaced(s);
  }

  /** The side conditions of `CleanOfTwoPasses` for this phrase. */
  lemma TickerFacts(t: string, u: string, v: string)
    requires t == "B#T@C$500点" && u == "BTC500点" && v == "BTC500 点"
    ensures t != [] && !IsStripSpace(t[0]) && !IsStripSpace(t[|t| - 1]) && t[0] != '#'
    ensures '\n' !in t
    ensures forall k :: 0 <= k < |u| ==> !IsRegexSpace(u[k]) && !IsSeparator(u[k])
    ensures SingleSpaced(v) && !IsStripSpace(v[0]) && !IsStripSpace(v[|v| - 1])
  {
  }

  lemma CleanTicker(t: string)
    requires t == "B#T@C$500点"
    ensures Clean(Some(t)) == "BTC500 点"
  {
    var t1 := CollapsePass(t, IsWordChar, IsSeparator);
    TickerFirstPass(t);
    var u := CollapsePass(t1, IsWordChar, IsSeparator);
    TickerSecondPass(t1);
    var v := AddTokenizationSpaces(u);
    TickerSpaced(u);
    TickerFacts(t, u, v);
    CleanOfTwoPasses(t, t1, u, v);
  }
}
