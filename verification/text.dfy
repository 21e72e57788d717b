/** The character classes of .NET that the assembler's string handling depends on. */
module Text {

  /** char.IsWhiteSpace: the Unicode space, line and paragraph separators plus U+0009..U+000D, U+0085. */
  predicate IsWhiteSpace(c: char) {
    var n := c as int;
    || (0x09 <= n <= 0x0D) || n == 0x20 || n == 0x85 || n == 0xA0 || n == 0x1680
    || (0x2000 <= n <= 0x200A) || n == 0x2028 || n == 0x2029 || n == 0x202F || n == 0x205F || n == 0x3000
  }

  /** string.IsNullOrWhiteSpace (a string value is never null here; the empty string qualifies). */
  predicate IsNullOrWhiteSpace(s: string) {
    forall i :: 0 <= i < |s| ==> IsWhiteSpace(s[i])
  }

  /** Regex `\d`, restricted to ASCII digits. */
  predicate IsDigit(c: char) {
    '0' <= c <= '9'
  }

  predicate AllDigits(s: string) {
    forall i :: 0 <= i < |s| ==> IsDigit(s[i])
  }

  /** Regex `\w`, restricted to ASCII letters, digits and underscore. */
  predicate IsWordChar(c: char) {
    ('A' <= c <= 'Z') || ('a' <= c <= 'z') || IsDigit(c) || c == '_'
  }

  predicate IsLower(c: char) {
    'a' <= c <= 'z'
  }

  /** char.ToUpper on ASCII letters; every other character is left alone. */
  function ToUpper(c: char): (u: char)
    ensures !IsLower(u)
    ensures IsWordChar(u) <==> IsWordChar(c)
    ensures !IsLower(c) ==> u == c
    ensures IsLower(c) ==> 'A' <= u <= 'Z' && u as int - 'A' as int == c as int - 'a' as int
  {
    if IsLower(c) then (c as int - 32) as char else c
  }

  /** string.ToUpper, character by character. */
  function Upper(s: string): (r: string)
    ensures |r| == |s|
    ensures forall i :: 0 <= i < |s| ==> r[i] == ToUpper(s[i])
  {
    seq(|s|, i requires 0 <= i < |s| => ToUpper(s[i]))
  }

  /** Upper-casing twice is upper-casing once. */
  lemma UpperIdempotent(s: string)
    ensures Upper(Upper(s)) == Upper(s)
  {
    assert forall i :: 0 <= i < |s| ==> Upper(Upper(s))[i] == ToUpper(ToUpper(s[i])) == ToUpper(s[i]);
  }
}
