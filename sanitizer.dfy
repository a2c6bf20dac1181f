/** `sanitizeInput` of the Cloud Functions: trim, cut to a maximum length, then
    drop the angle brackets and the ASCII control characters. */
module Sanitizer {
  import opened Common
  import opened Seqs

  /** The code points `String.prototype.trim` removes: ECMAScript WhiteSpace
      (tab, vertical tab, form feed, the byte order mark and every space
      separator) and LineTerminator (line feed, carriage return, U+2028, U+2029). */
  predicate IsTrimmable(c: char) {
    var n := c as int;
    (0x09 <= n <= 0x0D) || n == 0x20 || n == 0xA0 || n == 0x1680
    || (0x2000 <= n <= 0x200A) || n == 0x2028 || n == 0x2029
    || n == 0x202F || n == 0x205F || n == 0x3000 || n == 0xFEFF
  }

  /** Matched by `/[<>]/`. */
  predicate IsAngle(c: char) {
    c == '<' || c == '>'
  }

  /** Matched by `/[\x00-\x1F\x7F]/`. */
  predicate IsControl(c: char) {
    c as int <= 0x1F || c as int == 0x7F
  }

  /** Kept by `.replace(/[<>]/g, '')`. */
  predicate NotAngle(c: char) {
    !IsAngle(c)
  }

  /** Kept by `.replace(/[\x00-\x1F\x7F]/g, '')`. */
  predicate NotControl(c: char) {
    !IsControl(c)
  }

  /** A character that never survives sanitising. */
  predicate IsForbidden(c: char) {
    IsAngle(c) || IsControl(c)
  }

  /** `s.trimStart()`: the suffix of `s` left after its leading trimmable characters. */
  function TrimStart(s: string): (r: string)
    ensures |r| <= |s| && r == s[|s| - |r|..]
    ensures forall i :: 0 <= i < |s| - |r| ==> IsTrimmable(s[i])
    ensures r != [] ==> !IsTrimmable(r[0])
    ensures forall c :: c in r ==> c in s
  {
    if s != [] && IsTrimmable(s[0]) then TrimStart(s[1..]) else s
  }

  /** `s.trimEnd()`: the prefix of `s` left after its trailing trimmable characters. */
  function TrimEnd(s: string): (r: string)
    ensures |r| <= |s| && r == s[..|r|]
    ensures forall i :: |r| <= i < |s| ==> IsTrimmable(s[i])
    ensures r != [] ==> !IsTrimmable(r[|r| - 1])
    ensures forall c :: c in r ==> c in s
  {
    if s != [] && IsTrimmable(s[|s| - 1]) then TrimEnd(s[..|s| - 1]) else s
  }

  /** `s.trim()` */
  function Trim(s: string): string {
    TrimEnd(TrimStart(s))
  }

  /** `s.slice(0, n)`: a negative `n` counts from the end. */
  function SliceFromStart(s: string, n: int): (r: string)
    ensures |r| <= |s| && r == s[..|r|]
    ensures n >= 0 ==> |r| == if n < |s| then n else |s|
    ensures n < 0 ==> |r| == if |s| + n > 0 then |s| + n else 0
    ensures forall c :: c in r ==> c in s
  {
    if n >= 0 then (if n < |s| then s[..n] else s)
    else if |s| + n > 0 then s[..|s| + n] else []
  }

  /** `s.trim().slice(0, maxLength).replace(/[<>]/g, '').replace(/[\x00-\x1F\x7F]/g, '')` */
  function SanitizeString(s: string, maxLength: int): string {
    var cut := SliceFromStart(Trim(s), maxLength);
    Filter(NotControl, Filter(NotAngle, cut))
  }

  /** `sanitizeInput(input, maxLength)`: `''` for anything but a string. The
      result is never longer than a non-negative `maxLength` and holds no
      angle bracket and no control character. */
  function SanitizeInput(input: Value, maxLength: int): (r: string)
    ensures !input.Str? ==> r == ""
    ensures maxLength >= 0 ==> |r| <= maxLength
    ensures forall i :: 0 <= i < |r| ==> !IsForbidden(r[i])
    ensures forall c :: c in r ==> input.Str? && c in input.s
  {
    if input.Str? then
      SanitizedChars(input.s, maxLength);
      SanitizeString(input.s, maxLength)
    else ""
  }

  /** What survives sanitising is within the length, free of forbidden
      characters, and taken from the input. */
  lemma SanitizedChars(s: string, maxLength: int)
    ensures maxLength >= 0 ==> |SanitizeString(s, maxLength)| <= maxLength
    ensures forall i :: 0 <= i < |SanitizeString(s, maxLength)| ==> !IsForbidden(SanitizeString(s, maxLength)[i])
    ensures forall c :: c in SanitizeString(s, maxLength) ==> c in s
  {
    TrimChars(s);
    var r := SanitizeString(s, maxLength);
    assert forall i :: 0 <= i < |r| ==> r[i] in r;
  }

  /** Trimming only removes characters. */
  lemma TrimChars(s: string)
    ensures forall c :: c in Trim(s) ==> c in s
  {
  }

  /** A string that is already clean (no surrounding whitespace, no forbidden
      character, within the length) passes through unchanged. */
  lemma CleanInputUnchanged(s: string, maxLength: int)
    requires |s| <= maxLength
    requires s != [] ==> !IsTrimmable(s[0]) && !IsTrimmable(s[|s| - 1])
    requires forall i :: 0 <= i < |s| ==> !IsForbidden(s[i])
    ensures SanitizeInput(Str(s), maxLength) == s
  {
    assert TrimStart(s) == s;
    assert TrimEnd(s) == s;
    assert SliceFromStart(s, maxLength) == s;
    FilterKeepsAll(NotAngle, s);
    FilterKeepsAll(NotControl, s);
  }
}
