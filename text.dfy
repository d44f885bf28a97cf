/**
 * The two string operations the pantry input applies to what the user typed:
 * `String.prototype.trim` and `String.prototype.toLowerCase`, and their
 * composition, which is the normal form of every pantry entry.
 */
module Text {

  /** The code points ECMAScript's `trim` removes: the WhiteSpace set (tab,
      vertical tab, form feed, space, no-break space, zero-width no-break space
      and the Unicode space separators) and the LineTerminator set. */
  predicate IsWhitespace(c: char) {
    || c == '\t' || c == '\n' || c == '\U{000B}' || c == '\U{000C}' || c == '\r'
    || c == ' ' || c == '\U{00A0}' || c == '\U{1680}'
    || ('\U{2000}' <= c <= '\U{200A}')
    || c == '\U{2028}' || c == '\U{2029}' || c == '\U{202F}' || c == '\U{205F}'
    || c == '\U{3000}' || c == '\U{FEFF}'
  }

  predicate AllWhitespace(s: string) {
    forall i :: 0 <= i < |s| ==> IsWhitespace(s[i])
  }

  /** Neither end of `s` is whitespace: what `trim` leaves behind. */
  predicate IsTrimmed(s: string) {
    s == [] || (!IsWhitespace(s[0]) && !IsWhitespace(s[|s| - 1]))
  }

  predicate IsUpper(c: char) {
    'A' <= c <= 'Z'
  }

  /** How many whitespace characters `s` starts with. */
  function LeadingWhitespace(s: string): (n: nat)
    ensures n <= |s|
    ensures forall i :: 0 <= i < n ==> IsWhitespace(s[i])
    ensures n < |s| ==> !IsWhitespace(s[n])
  {
    if s != [] && IsWhitespace(s[0]) then 1 + LeadingWhitespace(s[1..]) else 0
  }

  /** How many whitespace characters `s` ends with. */
  function TrailingWhitespace(s: string): (n: nat)
    ensures n <= |s|
    ensures forall i :: |s| - n <= i < |s| ==> IsWhitespace(s[i])
    ensures n < |s| ==> !IsWhitespace(s[|s| - n - 1])
  {
    if s != [] && IsWhitespace(s[|s| - 1]) then 1 + TrailingWhitespace(s[..|s| - 1]) else 0
  }

  /** `s.trim()`: the infix of `s` left after cutting the whitespace from both
      ends. Everything cut is whitespace, neither end of the result is, and the
      result is empty exactly when `s` is whitespace only. */
  function Trim(s: string): (r: string)
    ensures IsTrimmed(r)
    ensures r == [] <==> AllWhitespace(s)
    ensures var lead := LeadingWhitespace(s);
            && lead + |r| <= |s| && r == s[lead..lead + |r|]
            && AllWhitespace(s[..lead]) && AllWhitespace(s[lead + |r|..])
  {
    var lead := LeadingWhitespace(s);
    var t := s[lead..];
    var trail := TrailingWhitespace(t);
    assert t != [] ==> !IsWhitespace(t[0]);
    assert s[lead + |t| - trail..] == t[|t| - trail..];
    t[..|t| - trail]
  }

  const LowerLetters := "abcdefghijklmnopqrstuvwxyz"

  /** Lower-cases one character (ASCII letters only; see README): an
      upper-case letter becomes the lower-case letter at the same place in
      the alphabet. */
  function LowerChar(c: char): (d: char)
    ensures IsUpper(c) ==> d == LowerLetters[c as int - 'A' as int]
    ensures !IsUpper(d)
    ensures IsWhitespace(d) <==> IsWhitespace(c)
    ensures !IsUpper(c) ==> d == c
  {
    if IsUpper(c) then (c as int + 32) as char else c
  }

  /** `s.toLowerCase()`: each character lower-cased in place, so the length
      and the whitespace positions are kept, no upper-case letter is left,
      and strings already in lower case are fixed points. */
  function ToLower(s: string): (r: string)
    ensures |r| == |s|
    ensures forall i :: 0 <= i < |s| ==> r[i] == LowerChar(s[i])
    ensures forall i :: 0 <= i < |r| ==> !IsUpper(r[i])
    ensures forall i :: 0 <= i < |r| ==> (IsWhitespace(r[i]) <==> IsWhitespace(s[i]))
    ensures (forall i :: 0 <= i < |s| ==> !IsUpper(s[i])) ==> r == s
  {
    seq(|s|, i requires 0 <= i < |s| => LowerChar(s[i]))
  }

  /** A pantry entry as the input box produces it: non-empty, trimmed and lower-case. */
  predicate IsNormalized(s: string) {
    s != [] && IsTrimmed(s) && forall i :: 0 <= i < |s| ==> !IsUpper(s[i])
  }

  /** `newItem.trim().toLowerCase()`: the trimmed text, lower-cased
      character by character. */
  function Normalize(s: string): (r: string)
    ensures |r| == |Trim(s)| && forall i :: 0 <= i < |r| ==> r[i] == LowerChar(Trim(s)[i])
    ensures r == [] <==> AllWhitespace(s)
    ensures r != [] ==> IsNormalized(r)
  {
    var t := Trim(s);
    var r := ToLower(t);
    assert r != [] ==> IsWhitespace(r[0]) == IsWhitespace(t[0]);
    assert r != [] ==> IsWhitespace(r[|r| - 1]) == IsWhitespace(t[|t| - 1]);
    r
  }

  /** Trimming a string that has no whitespace at either end changes nothing. */
  lemma TrimOfTrimmed(s: string)
    requires IsTrimmed(s)
    ensures Trim(s) == s
  {
    assert LeadingWhitespace(s) == 0;
    assert TrailingWhitespace(s) == 0;
  }

  /** Normalising twice is normalising once: re-submitting an entry that is
      already in the pantry yields that same entry, which the add then ignores. */
  lemma NormalizeIdempotent(s: string)
    ensures Normalize(Normalize(s)) == Normalize(s)
  {
    var n := Normalize(s);
    TrimOfTrimmed(n);
  }
}
