/** The Go string functions in front of the message envelope, over byte strings: strings.TrimSpace,
strings.ToLower as far as header names can tell, utf8.Valid and the header-name alphabet. */
module Text {

  /** The UTF-8 encodings of the Unicode white-space characters. */
  predicate IsSpaceRune(p: string) {
    if |p| == 1 then 9 <= p[0] as int <= 13 || p[0] == ' '
    else if |p| == 2 then p[0] == 0xC2 as char && (p[1] == 0x85 as char || p[1] == 0xA0 as char)
    else if |p| == 3 then
      || (p[0] == 0xE1 as char && p[1] == 0x9A as char && p[2] == 0x80 as char)
      || (p[0] == 0xE2 as char && p[1] == 0x80 as char
          && (0x80 <= p[2] as int <= 0x8A || p[2] as int in {0xA8, 0xA9, 0xAF}))
      || (p[0] == 0xE2 as char && p[1] == 0x81 as char && p[2] == 0x9F as char)
      || (p[0] == 0xE3 as char && p[1] == 0x80 as char && p[2] == 0x80 as char)
    else false
  }

  /** Length of the white-space rune that `s` starts with, or 0. */
  function LeadingSpace(s: string): (n: nat)
    ensures n <= |s|
  {
    if |s| >= 1 && IsSpaceRune(s[..1]) then 1
    else if |s| >= 2 && IsSpaceRune(s[..2]) then 2
    else if |s| >= 3 && IsSpaceRune(s[..3]) then 3 else 0
  }

  function TrailingSpace(s: string): (n: nat)
    ensures n <= |s|
  {
    if |s| >= 1 && IsSpaceRune(s[|s| - 1..]) then 1
    else if |s| >= 2 && IsSpaceRune(s[|s| - 2..]) then 2
    else if |s| >= 3 && IsSpaceRune(s[|s| - 3..]) then 3 else 0
  }

  function TrimLeft(s: string): (r: string)
    ensures |r| <= |s| && LeadingSpace(r) == 0
  {
    var n := LeadingSpace(s);
    if n == 0 then s else TrimLeft(s[n..])
  }

  function TrimRight(s: string): (r: string)
    ensures r <= s && TrailingSpace(r) == 0
  {
    var n := TrailingSpace(s);
    if n == 0 then s else TrimRight(s[..|s| - n])
  }

  function TrimSpace(s: string): (r: string)
    ensures |r| <= |s|
  {
    TrimRight(TrimLeft(s))
  }

  /** A prefix of a string that starts with no space starts with no space. */
  lemma PrefixLeadingSpace(r: string, t: string)
    requires r <= t && LeadingSpace(t) == 0
    ensures LeadingSpace(r) == 0
  {
  }

  lemma TrimSpaceIdempotent(s: string)
    ensures TrimSpace(TrimSpace(s)) == TrimSpace(s)
  {
    PrefixLeadingSpace(TrimSpace(s), TrimLeft(s));
  }

  /** Text that neither starts nor ends with white space is kept whole. */
  lemma TrimSpaceKeeps(s: string)
    requires LeadingSpace(s) == 0 && TrailingSpace(s) == 0
    ensures TrimSpace(s) == s
  {
  }

  /** White space in front of a text is cut off, one rune after another. */
  lemma TrimSpaceCuts(p: string, s: string)
    requires IsSpaceRune(p)
    ensures TrimSpace(p + s) == TrimSpace(s)
  {
    SpaceInFront(p, s);
  }

  lemma SpaceInFront(p: string, s: string)
    requires IsSpaceRune(p)
    ensures TrimLeft(p + s) == TrimLeft(s)
  {
    assert (p + s)[..|p|] == p && (p + s)[|p|..] == s;
    assert |p| >= 2 ==> (p + s)[..1] == p[..1];
    assert |p| >= 3 ==> (p + s)[..2] == p[..2];
  }

  /** strings.ToLower. Only ASCII capitals, the Kelvin sign and the dotted capital I map into ASCII;
  every other non-ASCII character stays non-ASCII, which is all a header name depends on. */
  function ToLower(s: string): string {
    if s == "" then ""
    else if 'A' <= s[0] <= 'Z' then [(s[0] as int + 32) as char] + ToLower(s[1..])
    else if |s| >= 3 && s[0] == 0xE2 as char && s[1] == 0x84 as char && s[2] == 0xAA as char then "k" + ToLower(s[3..])
    else if |s| >= 2 && s[0] == 0xC4 as char && s[1] == 0xB0 as char then "i" + ToLower(s[2..])
    else [s[0]] + ToLower(s[1..])
  }

  predicate HeaderChar(c: char) {
    || 'a' <= c <= 'z' || '0' <= c <= '9' || c == '!' || '#' <= c <= '\'' || c == '*' || c == '+'
    || c == '-' || c == '.' || '^' <= c <= '`' || c == '|' || c == '~'
  }

  predicate ValidHeaderName(s: string) {
    s != "" && forall i :: 0 <= i < |s| ==> HeaderChar(s[i])
  }

  lemma {:induction false} HeaderCharsAreLower(s: string)
    requires forall i :: 0 <= i < |s| ==> HeaderChar(s[i])
    ensures ToLower(s) == s
  {
    if s != "" {
      assert HeaderChar(s[0]);
      HeaderCharsAreLower(s[1..]);
      assert s == [s[0]] + s[1..];
    }
  }

  /** Header names are normalised by trimming and lowering; a valid name is its own normal form. */
  function NormalName(raw: string): string {
    ToLower(TrimSpace(raw))
  }

  lemma NoSpaceAtEnds(s: string)
    requires forall i :: 0 <= i < |s| ==> HeaderChar(s[i])
    ensures LeadingSpace(s) == 0 && TrailingSpace(s) == 0
  {
  }

  lemma ValidNameIsNormal(s: string)
    requires ValidHeaderName(s)
    ensures NormalName(s) == s
  {
    NoSpaceAtEnds(s);
    HeaderCharsAreLower(s);
  }

  predicate Continuation(c: char) {
    0x80 <= c as int <= 0xBF
  }

  /** utf8.Valid: no stray or missing continuation bytes, overlong forms, surrogates or values above
  U+10FFFF. */
  predicate ValidUtf8(s: string) {
    if s == "" then true
    else
      var c := s[0] as int;
      if c < 0x80 then ValidUtf8(s[1..])
      else if 0xC2 <= c <= 0xDF then |s| >= 2 && Continuation(s[1]) && ValidUtf8(s[2..])
      else if 0xE0 <= c <= 0xEF then
        && |s| >= 3 && Continuation(s[1]) && Continuation(s[2])
        && (c == 0xE0 ==> s[1] as int >= 0xA0) && (c == 0xED ==> s[1] as int <= 0x9F)
        && ValidUtf8(s[3..])
      else
        && 0xF0 <= c <= 0xF4 && |s| >= 4 && Continuation(s[1]) && Continuation(s[2]) && Continuation(s[3])
        && (c == 0xF0 ==> s[1] as int >= 0x90) && (c == 0xF4 ==> s[1] as int <= 0x8F)
        && ValidUtf8(s[4..])
  }
}
