/** The string predicates the sender relies on: Java's `Character.isWhitespace`
    and commons-lang `StringUtils.isBlank`, used for the token check. */
module Text {
  import opened Base

  /** `Character.isWhitespace` on one UTF-16 unit (Java 9 and later Unicode
      tables; Java 8 and older also count U+180E): the space, line and
      paragraph separators except the three non-breaking spaces U+00A0,
      U+2007 and U+202F, plus the controls U+0009..U+000D and
      U+001C..U+001F. */
  predicate IsWhitespace(c: char) {
    var n := c as int;
    || 0x09 <= n <= 0x0D
    || 0x1C <= n <= 0x20
    || n == 0x1680
    || (0x2000 <= n <= 0x200A && n != 0x2007)
    || n == 0x2028
    || n == 0x2029
    || n == 0x205F
    || n == 0x3000
  }

  /** The scan `StringUtils.isBlank` performs over a non-null string. */
  function AllWhitespace(s: string): (r: bool)
    ensures r <==> forall i :: 0 <= i < |s| ==> IsWhitespace(s[i])
  {
    if |s| == 0 then true
    else if !IsWhitespace(s[0]) then false
    else AllWhitespace(s[1..])
  }

  /** `StringUtils.isBlank`: null, empty, or whitespace only. */
  predicate IsBlank(t: Option<string>) {
    t.None? || AllWhitespace(t.value)
  }

  predicate StartsWith(s: string, prefix: string) {
    |prefix| <= |s| && s[..|prefix|] == prefix
  }

  predicate EndsWith(s: string, suffix: string) {
    |suffix| <= |s| && s[|s| - |suffix|..] == suffix
  }
}
