/** The token-budget helper and the two limits exported next to the
    completion client. */
module OpenAi {
  import opened Strings
  import opened Sequences

  const MaxOutputTokens: nat := 400
  const MaxContextMessages: nat := 20

  /** The horizontal ellipsis appended to shortened text. */
  const Ellipsis: string := "\U{2026}"

  /** `trimToTokens`: a text of at most `4 * maxTokens` characters is
      returned as it is, a longer one is cut there and marked with `…`. */
  function TrimToTokens(text: string, maxTokens: int): (r: string)
    ensures |text| <= 4 * maxTokens ==> r == text
    ensures |text| > 4 * maxTokens ==>
              exists k :: 0 <= k <= |text| && r == text[..k] + Ellipsis
    ensures |text| > 4 * maxTokens >= 0 ==>
              |r| == 4 * maxTokens + 1 && r == text[..4 * maxTokens] + Ellipsis
  {
    var maxChars := 4 * maxTokens;
    if |text| <= maxChars then text
    else text[..SliceEnd(|text|, maxChars)] + Ellipsis
  }

  /** Trimming an already trimmed text to the same budget changes nothing. */
  lemma TrimToTokensIdempotent(text: string, maxTokens: nat)
    ensures TrimToTokens(TrimToTokens(text, maxTokens), maxTokens) == TrimToTokens(text, maxTokens)
  {
    var n := 4 * maxTokens;
    var once := TrimToTokens(text, maxTokens);
    if |text| > n {
      assert once[..n] == text[..n];
      assert TrimToTokens(once, maxTokens) == once[..n] + Ellipsis;
    }
  }
}
