/**
 * String primitives of Ruby and Rails the core relies on: maximal character runs
 * (what a greedy character-class repetition consumes), `strip`, `blank?`,
 * `Integer#to_s`, `String#to_i`, and the subsequence order used to state that the
 * cleaner only deletes characters or inserts spaces.
 */
module Strings {
  import opened Chars
  import opened Wrappers

  /** The end of the maximal run of `inRun` characters starting at `i`: what `[...]*` consumes from `i`. */
  function RunEnd(s: string, i: nat, inRun: char -> bool): (j: nat)
    requires i <= |s|
    ensures i <= j <= |s|
    ensures forall k :: i <= k < j ==> inRun(s[k])
    ensures j < |s| ==> !inRun(s[j])
    decreases |s| - i
  {
    if i == |s| || !inRun(s[i]) then i else RunEnd(s, i + 1, inRun)
  }

  /** A run end is determined by its defining property. */
  lemma {:induction false} RunEndIs(s: string, i: nat, inRun: char -> bool, j: nat)
    requires i <= j <= |s|
    requires forall k :: i <= k < j ==> inRun(s[k])
    requires j < |s| ==> !inRun(s[j])
    ensures RunEnd(s, i, inRun) == j
    decreases |s| - i
  {
    if i < j {
      assert inRun(s[i]);
      RunEndIs(s, i + 1, inRun, j);
    }
  }

  /** Every character of `s` satisfies `p`. */
  predicate All(s: string, p: char -> bool) {
    forall i :: 0 <= i < |s| ==> p(s[i])
  }

  /** The characters of `s` that satisfy `p`, in order. */
  function Filter(s: string, p: char -> bool): (r: string)
    ensures |r| <= |s|
    ensures All(r, p)
  {
    if s == [] then [] else (if p(s[0]) then [s[0]] else []) + Filter(s[1..], p)
  }

  lemma {:induction false} FilterConcat(a: string, b: string, p: char -> bool)
    ensures Filter(a + b, p) == Filter(a, p) + Filter(b, p)
  {
    if a != [] {
      var head: string := if p(a[0]) then [a[0]] else [];
      assert (a + b)[0] == a[0];
      assert (a + b)[1..] == a[1..] + b;
      FilterConcat(a[1..], b, p);
      calc {
        Filter(a + b, p);
        head + Filter(a[1..] + b, p);
        head + (Filter(a[1..], p) + Filter(b, p));
        (head + Filter(a[1..], p)) + Filter(b, p);
        Filter(a, p) + Filter(b, p);
      }
    } else {
      assert a + b == b;
    }
  }

  lemma {:induction false} FilterAll(s: string, p: char -> bool)
    requires All(s, p)
    ensures Filter(s, p) == s
  {
    if s != [] {
      FilterAll(s[1..], p);
    }
  }

  lemma {:induction false} FilterNone(s: string, p: char -> bool)
    requires forall i :: 0 <= i < |s| ==> !p(s[i])
    ensures Filter(s, p) == []
  {
    if s != [] {
      FilterNone(s[1..], p);
    }
  }

  predicate NotRegexSpace(c: char) {
    !IsRegexSpace(c)
  }

  /** The characters of `s` that are not `\s` white space. */
  function NonSpace(s: string): string {
    Filter(s, NotRegexSpace)
  }

  /** `a` is a (not necessarily contiguous) subsequence of `b`. */
  predicate IsSubseq<T(==)>(a: seq<T>, b: seq<T>)
    decreases |b|
  {
    if a == [] then true
    else if b == [] then false
    else if a[0] == b[0] then IsSubseq(a[1..], b[1..])
    else IsSubseq(a, b[1..])
  }

  lemma {:induction false} SubseqRefl(a: string)
    ensures IsSubseq(a, a)
  {
    if a != [] {
      SubseqRefl(a[1..]);
    }
  }

  lemma {:induction false} SubseqLength(a: string, b: string)
    requires IsSubseq(a, b)
    ensures |a| <= |b|
    decreases |b|
  {
    if a != [] && b != [] {
      if a[0] == b[0] {
        SubseqLength(a[1..], b[1..]);
      } else {
        SubseqLength(a, b[1..]);
      }
    }
  }

  /** Dropping the head of `a` keeps it a subsequence. */
  lemma {:induction false} SubseqTail<T>(a: seq<T>, b: seq<T>)
    requires a != [] && IsSubseq(a, b)
    ensures IsSubseq(a[1..], b)
    decreases |b|, 1
  {
    if b != [] {
      if a[0] == b[0] {
        SubseqSkip(a[1..], b);
      } else {
        SubseqTail(a, b[1..]);
        SubseqSkip(a[1..], b);
      }
    }
  }

  /** A subsequence of the tail of `b` is a subsequence of `b`. */
  lemma {:induction false} SubseqSkip<T>(a: seq<T>, b: seq<T>)
    requires b != [] && IsSubseq(a, b[1..])
    ensures IsSubseq(a, b)
    decreases |b|, 0
  {
    if a != [] && a[0] == b[0] {
      SubseqTail(a, b[1..]);
    }
  }

  /** A subsequence of a suffix of `b` is a subsequence of `b`. */
  lemma {:induction false} SubseqSuffix(a: string, b: string, k: nat)
    requires k <= |b| && IsSubseq(a, b[k..])
    ensures IsSubseq(a, b)
    decreases k
  {
    if k > 0 {
      assert b[1..][k - 1..] == b[k..];
      SubseqSuffix(a, b[1..], k - 1);
      SubseqSkip(a, b);
    }
  }

  lemma {:induction false} SubseqTrans(a: string, b: string, c: string)
    requires IsSubseq(a, b) && IsSubseq(b, c)
    ensures IsSubseq(a, c)
    decreases |c|
  {
    if a != [] {
      SubseqLength(a, b);
      SubseqLength(b, c);
      if b[0] == c[0] {
        if a[0] == b[0] {
          SubseqTrans(a[1..], b[1..], c[1..]);
        } else {
          SubseqTrans(a, b[1..], c[1..]);
          SubseqSkip(a, c);
        }
      } else {
        SubseqTrans(a, b, c[1..]);
        SubseqSkip(a, c);
      }
    }
  }

  /** Prefixing the same character on both sides keeps the order. */
  lemma SubseqCons<T>(x: T, a: seq<T>, b: seq<T>)
    requires IsSubseq(a, b)
    ensures IsSubseq([x] + a, [x] + b)
  {
    assert ([x] + a)[1..] == a;
    assert ([x] + b)[1..] == b;
  }

  /** Any contiguous slice is a subsequence. */
  lemma {:induction false} SliceSubseq(s: string, i: nat, j: nat)
    requires i <= j <= |s|
    ensures IsSubseq(s[i..j], s)
    decreases |s|
  {
    if i > 0 {
      SliceSubseq(s[1..], i - 1, j - 1);
      assert s[1..][i - 1..j - 1] == s[i..j];
      SubseqSkip(s[i..j], s);
    } else if j > 0 {
      SliceSubseq(s[1..], 0, j - 1);
      assert s[1..][..j - 1] == s[..j][1..];
    }
  }

  /** Filtering both sides keeps the order. */
  lemma {:induction false} FilterSubseq(a: string, b: string, p: char -> bool)
    requires IsSubseq(a, b)
    ensures IsSubseq(Filter(a, p), Filter(b, p))
    decreases |b|
  {
    if a == [] {
    } else if a[0] == b[0] {
      FilterSubseq(a[1..], b[1..], p);
      if p(a[0]) {
        assert Filter(a, p) == [a[0]] + Filter(a[1..], p);
        assert Filter(b, p) == [b[0]] + Filter(b[1..], p);
        SubseqCons(a[0], Filter(a[1..], p), Filter(b[1..], p));
      } else {
        assert Filter(a, p) == Filter(a[1..], p);
        assert Filter(b, p) == Filter(b[1..], p);
      }
    } else {
      FilterSubseq(a, b[1..], p);
      if p(b[0]) {
        assert Filter(b, p) == [b[0]] + Filter(b[1..], p);
        assert Filter(b, p)[1..] == Filter(b[1..], p);
        SubseqSkip(Filter(a, p), Filter(b, p));
      } else {
        assert Filter(b, p) == Filter(b[1..], p);
      }
    }
  }

  /** The start of `s` after its leading strip-space characters. */
  function StripStart(s: string, i: nat): (k: nat)
    requires i <= |s|
    ensures i <= k <= |s|
    ensures forall m :: i <= m < k ==> IsStripSpace(s[m])
    ensures k < |s| ==> !IsStripSpace(s[k])
    decreases |s| - i
  {
    if i == |s| || !IsStripSpace(s[i]) then i else StripStart(s, i + 1)
  }

  /** The end of `s[..j]` after dropping its trailing strip-space characters down to `lo`. */
  function StripEnd(s: string, lo: nat, j: nat): (k: nat)
    requires lo <= j <= |s|
    ensures lo <= k <= j
    ensures forall m :: k <= m < j ==> IsStripSpace(s[m])
    ensures k > lo ==> !IsStripSpace(s[k - 1])
    decreases j
  {
    if j == lo || !IsStripSpace(s[j - 1]) then j else StripEnd(s, lo, j - 1)
  }

  /** `String#strip`: the slice left after removing NUL and ASCII white space at both ends. */
  function Strip(s: string): (r: string)
    ensures IsSubseq(r, s)
    ensures r != [] ==> !IsStripSpace(r[0]) && !IsStripSpace(r[|r| - 1])
    ensures r == [] <==> All(s, IsStripSpace)
    ensures exists i, j ::
              && 0 <= i <= j <= |s| && r == s[i..j]
              && (forall m :: 0 <= m < i ==> IsStripSpace(s[m]))
              && (forall m :: j <= m < |s| ==> IsStripSpace(s[m]))
  {
    var i := StripStart(s, 0);
    var j := StripEnd(s, i, |s|);
    SliceSubseq(s, i, j);
    assert j == i ==> forall m :: 0 <= m < |s| ==> IsStripSpace(s[m]) by {
      forall m | 0 <= m < |s| && j == i ensures IsStripSpace(s[m]) {
        assert m < i || j <= m;
      }
    }
    s[i..j]
  }

  /** Rails `blank?` on a string: empty or only `[[:space:]]`. */
  predicate IsBlank(s: string) {
    All(s, IsUnicodeSpace)
  }

  /** Rails `blank?` on a possibly-nil string. */
  predicate IsBlankOpt(s: Option<string>) {
    s.None? || IsBlank(s.value)
  }

  /** The decimal digits of `n`, most significant first, no leading zeros. */
  function NatToS(n: nat): (r: string)
    ensures r != [] && All(r, IsAsciiDigit)
    decreases n
  {
    if n < 10 then [DigitChar(n)] else NatToS(n / 10) + [DigitChar(n % 10)]
  }

  /** `Integer#to_s`. */
  function IntToS(n: int): (r: string)
    ensures r != []
  {
    if n < 0 then "-" + NatToS(-n) else NatToS(n)
  }

  /** The value of a string of decimal digits. */
  function DigitsValue(ds: string): (v: nat)
    requires All(ds, IsAsciiDigit)
    decreases |ds|
  {
    if ds == [] then 0
    else DigitsValue(ds[..|ds| - 1]) * 10 + (ds[|ds| - 1] as int - '0' as int)
  }

  /**
   * The digits `to_i` reads from the start of `s`: decimal digits, where a
   * single `_` may stand between two digits. The underscores are dropped.
   */
  function LeadingDigits(s: string): (ds: string)
    ensures All(ds, IsAsciiDigit)
    ensures |ds| <= |s|
  {
    if s == [] || !IsAsciiDigit(s[0]) then []
    else if |s| >= 3 && s[1] == '_' && IsAsciiDigit(s[2]) then [s[0]] + LeadingDigits(s[2..])
    else [s[0]] + LeadingDigits(s[1..])
  }

  /** A string of digits alone is read in full. */
  lemma {:induction false} LeadingDigitsAll(s: string)
    requires All(s, IsAsciiDigit)
    ensures LeadingDigits(s) == s
  {
    if s != [] {
      LeadingDigitsAll(s[1..]);
    }
  }

  /** The digits `to_i` reads after the sign: an optional `0d`/`0D` decimal prefix is skipped first. */
  function UnsignedDigits(t: string): (ds: string)
    ensures All(ds, IsAsciiDigit)
  {
    if |t| >= 2 && t[0] == '0' && (t[1] == 'd' || t[1] == 'D') then LeadingDigits(t[2..])
    else LeadingDigits(t)
  }

  /**
   * `String#to_i`: leading `\s` white space, an optional sign, an optional
   * `0d` prefix, then the longest run of decimal digits with single
   * underscores between digits; anything else yields 0 for the missing digits.
   */
  function StrToI(s: string): int {
    var t := s[RunEnd(s, 0, IsRegexSpace)..];
    if |t| > 0 && t[0] == '-' then -(DigitsValue(UnsignedDigits(t[1..])) as int)
    else if |t| > 0 && t[0] == '+' then DigitsValue(UnsignedDigits(t[1..]))
    else DigitsValue(UnsignedDigits(t))
  }

  lemma {:induction false} DigitsValueOfNatToS(n: nat)
    ensures DigitsValue(NatToS(n)) == n
    decreases n
  {
    var r := NatToS(n);
    if n >= 10 {
      DigitsValueOfNatToS(n / 10);
      assert r[..|r| - 1] == NatToS(n / 10);
    }
  }

  /** `to_i` inverts `to_s` on every integer. */
  lemma {:induction false} StrToIOfIntToS(n: int)
    ensures StrToI(IntToS(n)) == n
  {
    var s := IntToS(n);
    var digits := if n < 0 then NatToS(-n) else NatToS(n);
    assert !IsRegexSpace(s[0]);
    RunEndIs(s, 0, IsRegexSpace, 0);
    assert s[0..] == s;
    LeadingDigitsAll(digits);
    assert |digits| >= 2 ==> IsAsciiDigit(digits[1]);
    DigitsValueOfNatToS(if n < 0 then -n else n);
    if n < 0 {
      assert s[1..] == digits;
    } else {
      assert s[0] != '-' && s[0] != '+';
    }
  }
}
