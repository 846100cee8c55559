/** `truncateText`, the helper the news cards use to shorten descriptions. */
module Script {
  import opened Text

  /** `truncateText(text, maxLength)`, where `None` stands for `null` or
      `undefined`. Missing or empty text gives the empty string, text that
      fits is returned as it is, and longer text keeps its first
      `maxLength` characters (none when `maxLength` is negative), trimmed,
      followed by an ellipsis. */
  function TruncateText(text: Option<string>, maxLength: int): (r: string)
    ensures text.None? || text.value == "" ==> r == ""
    ensures text.Some? && |text.value| <= maxLength ==> r == text.value
    ensures text.Some? && text.value != "" && maxLength < |text.value| ==>
              && 3 <= |r| <= Max(maxLength, 0) + 3
              && r[|r| - 3..] == "..."
              && Stripped(text.value[..Max(maxLength, 0)], r[..|r| - 3])
              && (|r| > 3 ==> !IsJsSpace(r[0]) && !IsJsSpace(r[|r| - 4]))
  {
    match text
    case None => ""
    case Some(s) =>
      if s == "" then ""
      else if |s| <= maxLength then s
      else
        var kept := Trim(s[..Max(maxLength, 0)]);
        assert (kept + "...")[..|kept|] == kept;
        kept + "..."
  }
}
