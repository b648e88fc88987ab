/**
 * `PrometheusMetrics`: the label values attached to every metric.
 */
module Metrics {
  import opened Wrappers
  import opened Chars
  import opened Strings

  /** Labels are cut to this many characters. */
  const MaxLabelLength: nat := 64

  /** `gsub(/[^a-zA-Z0-9_\-]/, "_")`: every other character becomes an underscore. */
  function Underscore(s: string): (r: string)
    ensures |r| == |s|
    ensures forall i :: 0 <= i < |s| ==> r[i] == if IsLabelChar(s[i]) then s[i] else '_'
  {
    if s == [] then [] else [if IsLabelChar(s[0]) then s[0] else '_'] + Underscore(s[1..])
  }

  /** `sanitize_label`: "unknown" for nil or empty, else the underscored label cut to 64 characters. */
  function SanitizeLabel(text: Option<string>): (r: string)
    ensures text.None? || text.value == [] ==> r == "unknown"
    ensures |r| <= MaxLabelLength
    ensures forall i :: 0 <= i < |r| ==> IsLabelChar(r[i])
    ensures text.Some? && text.value != [] ==>
              |r| == (if |text.value| < MaxLabelLength then |text.value| else MaxLabelLength)
              && forall i :: 0 <= i < |r| ==> r[i] == if IsLabelChar(text.value[i]) then text.value[i] else '_'
  {
    if text.None? || text.value == [] then "unknown"
    else
      var u := Underscore(text.value);
      if |u| <= MaxLabelLength then u else u[..MaxLabelLength]
  }

  /** A label already made of allowed characters and short enough comes back unchanged. */
  lemma SanitizeClean(text: string)
    requires text != [] && |text| <= MaxLabelLength
    requires forall i :: 0 <= i < |text| ==> IsLabelChar(text[i])
    ensures SanitizeLabel(Some(text)) == text
  {
  }

  /** Sanitising is idempotent. */
  lemma SanitizeIdempotent(text: Option<string>)
    ensures SanitizeLabel(Some(SanitizeLabel(text))) == SanitizeLabel(text)
  {
    var r := SanitizeLabel(text);
    assert r != [];
    SanitizeClean(r);
  }

  /** The labels of one group. */
  datatype GroupLabels = GroupLabels(groupId: string, groupName: string)

  /** `nil.to_s` is empty; an integer prints in decimal. */
  function IdToS(id: Option<int>): (r: string)
    ensures id.None? ==> r == ""
    ensures id.Some? ==> StrToI(r) == id.value
  {
    match id
    case None => ""
    case Some(n) => StrToIOfIntToS(n); IntToS(n)
  }

  /** `group_labels`: the id as text, the name sanitised. */
  function GroupLabelsOf(groupId: Option<int>, groupName: Option<string>): (r: GroupLabels)
    ensures r.groupId == IdToS(groupId)
    ensures r.groupName == SanitizeLabel(groupName)
  {
    GroupLabels(IdToS(groupId), SanitizeLabel(groupName))
  }
}
