/**
 * `RuleBasedClassifier`: the pre-filter that flags Chinese text written
 * with a space after almost every character.
 */
module RuleClassifier {
  import opened Wrappers
  import opened Chars
  import opened TrainedMessages

  /** `Shared::ClassificationResult`: the decision, the target that decided it, and its score. */
  datatype ClassificationResult = ClassificationResult(isSpam: bool, target: Option<TrainingTarget>, pSpam: real)

  /** The clean verdict: not spam, no target, score 0. */
  const NonSpam: ClassificationResult := ClassificationResult(false, None, 0.0)

  /** Fewer Han characters than this are never judged. */
  const MinChineseChars: nat := 5

  /** `config.chinese_space_spam_threshold` (0.8). */
  const SpacingThreshold: real := 0.8

  /** The number of `\p{Han}` characters (`scan(/\p{Han}/).size`). */
  function CountHan(s: string, han: char -> bool): (n: nat)
    ensures n <= |s|
    ensures n == 0 <==> forall i :: 0 <= i < |s| ==> !han(s[i])
  {
    if s == [] then 0
    else (if han(s[0]) then 1 else 0) + CountHan(s[1..], han)
  }

  /** Whether position `i` holds a Han character followed by `\s`. */
  predicate SpacedAt(s: string, i: nat, han: char -> bool)
    requires i < |s|
  {
    han(s[i]) && i + 1 < |s| && IsRegexSpace(s[i + 1])
  }

  /** The number of Han characters followed by white space (`scan(/\p{Han}(?=\s)/).size`). */
  function CountSpacedHan(s: string, han: char -> bool): nat {
    if s == [] then 0
    else (if SpacedAt(s, 0, han) then 1 else 0) + CountSpacedHan(s[1..], han)
  }

  /** Every counted spaced character is a Han character. */
  lemma {:induction false} SpacedAtMostHan(s: string, han: char -> bool)
    ensures CountSpacedHan(s, han) <= CountHan(s, han)
    decreases |s|
  {
    if s != [] {
      SpacedAtMostHan(s[1..], han);
    }
  }

  /** The threshold test on the ratio, in integers. */
  lemma RatioTest(spaced: nat, chars: nat)
    requires chars > 0
    ensures (spaced as real) / (chars as real) > SpacingThreshold <==> 10 * spaced > 8 * chars
  {
    var q := (spaced as real) / (chars as real);
    assert q * (chars as real) == spaced as real;
    if q > SpacingThreshold {
      assert q * (chars as real) > SpacingThreshold * (chars as real);
    }
    if 10 * spaced > 8 * chars {
      assert (10 * spaced) as real > (8 * chars) as real;
      assert q * (chars as real) > SpacingThreshold * (chars as real);
    }
  }

  /** `check_chinese_spacing_spam`. */
  function CheckChineseSpacing(s: string, han: char -> bool): (r: ClassificationResult)
    ensures r.isSpam <==> CountHan(s, han) >= MinChineseChars && 10 * CountSpacedHan(s, han) > 8 * CountHan(s, han)
    ensures r.isSpam ==> r == ClassificationResult(true, Some(MessageContent), 1.0)
    ensures !r.isSpam ==> r == NonSpam
  {
    if exists i | 0 <= i < |s| :: han(s[i]) then
      var spaced := CountSpacedHan(s, han);
      var chars := CountHan(s, han);
      var ratio := if chars > 0 then (spaced as real) / (chars as real) else 0.0;
      if ratio > SpacingThreshold && chars >= MinChineseChars then
        RatioTest(spaced, chars);
        ClassificationResult(true, Some(MessageContent), 1.0)
      else
        (if chars > 0 then RatioTest(spaced, chars); NonSpam else NonSpam)
    else
      NonSpam
  }

  /** `classify`: the spacing check's result, whichever way it went. */
  function Classify(s: string, han: char -> bool): (r: ClassificationResult)
    ensures r == CheckChineseSpacing(s, han)
  {
    CheckChineseSpacing(s, han)
  }

  /** Text without Han characters passes. */
  lemma NoHanPasses(s: string, han: char -> bool)
    requires forall i :: 0 <= i < |s| ==> !han(s[i])
    ensures Classify(s, han) == NonSpam
  {
  }

  /** Fewer than five Han characters pass, however they are spaced. */
  lemma ShortTextPasses(s: string, han: char -> bool)
    requires CountHan(s, han) < MinChineseChars
    ensures Classify(s, han) == NonSpam
  {
  }
}
