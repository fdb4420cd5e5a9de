/**
 * `truncateText` of src/lib/mindMapUtils.ts: shortens a label for the mind
 * map. A text longer than twice the limit keeps its head and its last ten
 * characters around an ellipsis; one merely longer than the limit keeps its
 * head and an ellipsis; anything else is returned unchanged.
 */
module Truncate {
  import opened Model

  /** The limit used when the caller passes none. */
  const DefaultMaxLength: nat := 25

  /** How many trailing characters a very long text keeps. */
  const TailLength: nat := 10

  const Ellipsis: string := "..."

  /** The last ten characters, or the whole text when it is shorter (mindMapUtils.ts:46): a negative start counts as 0. */
  function Tail(text: string): (t: string)
    ensures |t| == Min(TailLength, |text|)
    ensures text == text[..|text| - |t|] + t
  {
    if |text| <= TailLength then text else text[|text| - TailLength..]
  }

  function TruncateText(text: string, maxLength: nat): (r: string)
    ensures |text| <= maxLength ==> r == text
    ensures |text| > maxLength ==>
      && |r| >= maxLength + |Ellipsis|
      && r[..maxLength] == text[..maxLength]
      && r[maxLength..maxLength + |Ellipsis|] == Ellipsis
    ensures maxLength < |text| <= 2 * maxLength ==> |r| == maxLength + |Ellipsis|
    ensures |text| > 2 * maxLength ==>
      && |r| == maxLength + |Ellipsis| + Min(TailLength, |text|)
      && r[|r| - Min(TailLength, |text|)..] == text[|text| - Min(TailLength, |text|)..]
    ensures |r| <= maxLength + |Ellipsis| + TailLength
  {
    if |text| == 0 then ""
    else if |text| > maxLength * 2 then text[..maxLength] + Ellipsis + Tail(text)
    else if |text| > maxLength then text[..maxLength] + Ellipsis
    else text
  }

  /** `truncateText(text)` with the default limit: never more than 38 characters. */
  lemma DefaultTruncateBound(text: string)
    ensures |TruncateText(text, DefaultMaxLength)| <= 38
    ensures |text| <= 25 ==> TruncateText(text, DefaultMaxLength) == text
  {
  }

  /**
   * A text a little over the limit comes back longer than it went in: the
   * ellipsis adds three characters while at most two are cut.
   */
  lemma EllipsisCanLengthen(text: string, maxLength: nat)
    requires maxLength < |text| < maxLength + |Ellipsis|
    ensures |TruncateText(text, maxLength)| > |text|
  {
  }
}
