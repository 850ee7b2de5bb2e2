/** The clean-up both downloaders apply to a matched candidate link: undo the
    `\/` and `\"` escapes of embedded JavaScript, then trim quote characters
    from both ends. */
module Candidates {
  import opened Text

  const QuoteChars: set<char> := {'"', '\''}

  function Clean(m: string): (r: string)
    ensures r != [] ==> r[0] !in QuoteChars && r[|r| - 1] !in QuoteChars
  {
    StripSpec(ReplaceAll(ReplaceAll(m, "\\/", "/"), "\\\"", "\""), QuoteChars);
    Strip(ReplaceAll(ReplaceAll(m, "\\/", "/"), "\\\"", "\""), QuoteChars)
  }

  /** Cleaning never lengthens a candidate, and a text without backslashes
      and without surrounding quotes is already clean. */
  lemma CleanProperties(m: string)
    ensures |Clean(m)| <= |m|
    ensures '\\' !in m && (m != [] ==> m[0] !in QuoteChars && m[|m| - 1] !in QuoteChars) ==> Clean(m) == m
  {
    var a := ReplaceAll(m, "\\/", "/");
    var b := ReplaceAll(a, "\\\"", "\"");
    ReplaceAllShrinks(m, "\\/", "/");
    ReplaceAllShrinks(a, "\\\"", "\"");
    StripSpec(b, QuoteChars);
    if '\\' !in m && (m != [] ==> m[0] !in QuoteChars && m[|m| - 1] !in QuoteChars) {
      ReplaceAllKeepsText(m, "\\/", "/");
      ReplaceAllKeepsText(a, "\\\"", "\"");
      if m != [] {
        TrimEndSpec(m, QuoteChars);
        assert TrimStart(m, QuoteChars) == m;
        assert TrimEnd(m, QuoteChars) == m;
      }
    }
  }
}
