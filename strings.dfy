/**
 * The few `java.lang.String` and `StringUtils` operations the gateway core
 * relies on: prefix tests, lower-casing, case-insensitive equality and
 * `StringUtils.hasText`.
 */
module Strings {
  import opened Wrappers

  /** A Java `String` reference: `None` is `null`. */
  type JString = Option<string>

  /** `s.startsWith(prefix)`. */
  function StartsWith(s: string, prefix: string): (b: bool)
    ensures b <==> |prefix| <= |s| && s[..|prefix|] == prefix
  {
    if prefix == [] then true
    else if s == [] then false
    else s[0] == prefix[0] && StartsWith(s[1..], prefix[1..])
  }

  /** `Character.toLowerCase` on the Basic Latin block. */
  function LowerChar(c: char): char
  {
    if 'A' <= c <= 'Z' then (c as int - 'A' as int + 'a' as int) as char else c
  }

  /** `s.toLowerCase()`, character by character. */
  function ToLower(s: string): (r: string)
    ensures |r| == |s|
    ensures forall i :: 0 <= i < |s| ==> r[i] == LowerChar(s[i])
  {
    if s == [] then [] else [LowerChar(s[0])] + ToLower(s[1..])
  }

  /** `b.equalsIgnoreCase(a)`: `b` is the non-null receiver and `a` the
      nullable argument, which compares unequal when null. */
  function EqualsIgnoreCase(a: JString, b: string): (r: bool)
    ensures r <==> a.Some? && |a.value| == |b| &&
                   forall i :: 0 <= i < |b| ==> LowerChar(a.value[i]) == LowerChar(b[i])
    ensures a == Some(b) ==> r
  {
    a.Some? && |a.value| == |b| && ToLower(a.value) == ToLower(b)
  }

  /** `Character.isWhitespace`: the Unicode space, line and paragraph
      separators other than the no-break spaces, and the controls
      U+0009..U+000D and U+001C..U+001F. */
  predicate IsWhitespace(c: char)
  {
    || c == ' '
    || ('\t' <= c <= '\r')
    || ('\U{1C}' <= c <= '\U{1F}')
    || c == '\U{1680}'
    || ('\U{2000}' <= c <= '\U{2006}')
    || ('\U{2008}' <= c <= '\U{200A}')
    || c == '\U{2028}' || c == '\U{2029}'
    || c == '\U{205F}' || c == '\U{3000}'
  }

  /** `StringUtils.containsText`: some character is not whitespace. */
  function ContainsText(s: string): (b: bool)
    ensures b <==> exists i :: 0 <= i < |s| && !IsWhitespace(s[i])
  {
    if s == [] then false
    else if !IsWhitespace(s[0]) then true
    else
      var rest := ContainsText(s[1..]);
      assert forall i :: 1 <= i < |s| ==> s[i] == s[1..][i - 1];
      rest
  }

  /** `StringUtils.hasText`: not null, not empty and not only whitespace. */
  function HasText(s: JString): (b: bool)
    ensures b ==> s.Some? && |s.value| > 0
    ensures s.Some? ==> (b <==> exists i :: 0 <= i < |s.value| && !IsWhitespace(s.value[i]))
  {
    s.Some? && |s.value| > 0 && ContainsText(s.value)
  }
}
