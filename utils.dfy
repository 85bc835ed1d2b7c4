/** `truncateText` of src/lib/utils.ts: shorten a label to at most
    `maxLength` characters, trimmed, followed by an ellipsis. */
module Utils {
  import JsStrings

  /** The default `maxLength`. */
  const DefaultMaxLength := 50

  /** Where `substring(0, maxLength)` stops: a negative end counts as 0. */
  function PrefixEnd(maxLength: int): nat {
    if maxLength < 0 then 0 else maxLength
  }

  /** `truncateText(text, maxLength)`. When the text is longer than
      `maxLength`, `maxLength` is below `|text|`, so the prefix is a proper
      one. */
  function TruncateText(text: string, maxLength: int): (r: string)
    ensures |text| <= maxLength ==> r == text
    ensures |text| > maxLength ==> JsStrings.EndsWith(r, "...") && |r| <= PrefixEnd(maxLength) + 3
    ensures |r| <= PrefixEnd(maxLength) + 3
  {
    if |text| <= maxLength then text
    else JsStrings.Trim(text[..PrefixEnd(maxLength)]) + "..."
  }

  /** `truncateText(text)` with the default length. */
  function TruncateDefault(text: string): (r: string)
    ensures |r| <= DefaultMaxLength + 3
    ensures |text| <= DefaultMaxLength ==> r == text
  {
    TruncateText(text, DefaultMaxLength)
  }

  /** A truncated text is a slice of the kept prefix, cut from it only
      white space at either end, then the ellipsis. */
  lemma TruncateKeepsPrefix(text: string, maxLength: int) returns (a: nat, b: nat)
    requires |text| > maxLength
    ensures a <= b <= PrefixEnd(maxLength)
    ensures TruncateText(text, maxLength) == text[a..b] + "..."
    ensures JsStrings.AllWhitespace(text[..a]) && JsStrings.AllWhitespace(text[b..PrefixEnd(maxLength)])
  {
    var p := text[..PrefixEnd(maxLength)];
    a, b := JsStrings.TrimBounds(p);
    assert p[a..b] == text[a..b];
    assert p[..a] == text[..a] by {
      assert |p[..a]| == |text[..a]| == a;
      forall i | 0 <= i < a
        ensures p[..a][i] == text[..a][i]
      {
        assert p[i] == text[i];
      }
    }
    assert p[b..] == text[b..PrefixEnd(maxLength)];
  }

  /** When the prefix already has no white space at its ends, truncation
      keeps it whole. */
  lemma TruncateWholePrefix(text: string, maxLength: int)
    requires |text| > maxLength > 0
    requires !JsStrings.IsWhitespace(text[0]) && !JsStrings.IsWhitespace(text[maxLength - 1])
    ensures TruncateText(text, maxLength) == text[..maxLength] + "..."
  {
    JsStrings.TrimNoWhitespace(text[..maxLength]);
  }
}
