/*
 * Character classes and the C string view used by the native parser
 * (src/xmlparse.cpp). The parser reads a NUL-terminated byte buffer through a
 * global cursor; here the buffer is a `string` whose characters stand for its
 * bytes, read through `At`.
 */
module XmlChars {

  /** The terminating byte of a C string. */
  const NUL: char := '\0'

  /** `std::isalpha` in the "C" locale. */
  predicate IsAlpha(c: char) {
    'a' <= c <= 'z' || 'A' <= c <= 'Z'
  }

  /** `std::isdigit` in the "C" locale. */
  predicate IsDigit(c: char) {
    '0' <= c <= '9'
  }

  /** `std::isalnum` in the "C" locale. */
  predicate IsAlnum(c: char) {
    IsAlpha(c) || IsDigit(c)
  }

  /** `std::isspace` in the "C" locale: space, tab, line feed, vertical tab, form feed, carriage return. */
  predicate IsSpace(c: char) {
    c == ' ' || c == '\t' || c == '\n' || c == '\U{000B}' || c == '\U{000C}' || c == '\r'
  }

  /** A character that may start an element or attribute name. */
  predicate IsNameStart(c: char) {
    IsAlpha(c) || c == '_' || c == ':'
  }

  /** A character that may continue an element or attribute name. */
  predicate IsNameChar(c: char) {
    IsAlnum(c) || c == '_' || c == ':' || c == '-' || c == '.'
  }

  /** A name as the scanners accept it: a start character followed by name characters. */
  predicate IsName(s: string) {
    |s| > 0 && IsNameStart(s[0]) && forall k :: 0 < k < |s| ==> IsNameChar(s[k])
  }

  /** A string a C caller can pass whole (the argument parser rejects embedded NULs). */
  predicate NoNul(s: string) {
    forall k :: 0 <= k < |s| ==> s[k] != NUL
  }

  /**
   * The byte at offset k of the NUL-terminated buffer holding s. Offsets at
   * and past the end read as NUL.
   */
  function At(s: string, k: nat): (c: char)
    ensures c != NUL ==> k < |s| && c == s[k]
    ensures k < |s| ==> c == s[k]
  {
    if k < |s| then s[k] else NUL
  }

  /** The characters of s that are name characters, in order (a close tag's name skips spaces). */
  function NameChars(s: string): (r: string)
    ensures |r| <= |s|
    ensures forall k :: 0 <= k < |r| ==> IsNameChar(r[k])
  {
    if s == [] then []
    else (if IsNameChar(s[0]) then [s[0]] else []) + NameChars(s[1..])
  }

  /** The empty sequence is a left unit of concatenation. */
  lemma NilAppend<T>(x: seq<T>)
    ensures [] + x == x
  {
  }

  /** The empty sequence is a right unit of concatenation. */
  lemma AppendNil<T>(x: seq<T>)
    ensures x + [] == x
  {
  }

  /** Concatenation is associative. */
  lemma AppendAssoc<T>(a: seq<T>, b: seq<T>, c: seq<T>)
    ensures (a + b) + c == a + (b + c)
  {
  }

  lemma {:induction false} NameCharsAppend(s: string, c: char)
    ensures NameChars(s + [c]) == NameChars(s) + (if IsNameChar(c) then [c] else [])
  {
    if s != [] {
      assert (s + [c])[1..] == s[1..] + [c];
      NameCharsAppend(s[1..], c);
    }
  }

  // ---------------------------------------------------------------------
  // Stripping surrounding white space, for a given notion of white space
  // (C's isspace in the native parser, Python's str.isspace in the handler).
  // ---------------------------------------------------------------------

  /** The first offset at or after k whose character is not white space (|s| if none). */
  function SkipLeading(s: string, k: nat, ws: char -> bool): (r: nat)
    requires k <= |s|
    ensures k <= r <= |s|
    ensures forall j :: k <= j < r ==> ws(s[j])
    ensures r < |s| ==> !ws(s[r])
    decreases |s| - k
  {
    if k < |s| && ws(s[k]) then SkipLeading(s, k + 1, ws) else k
  }

  /** The end offset after dropping white space from s[lo..e] on the right. */
  function SkipTrailing(s: string, lo: nat, e: nat, ws: char -> bool): (r: nat)
    requires lo <= e <= |s|
    ensures lo <= r <= e
    ensures forall j :: r <= j < e ==> ws(s[j])
    ensures r > lo ==> !ws(s[r - 1])
    decreases e
  {
    if e > lo && ws(s[e - 1]) then SkipTrailing(s, lo, e - 1, ws) else e
  }

  /** s without leading and trailing white space. */
  function Trim(s: string, ws: char -> bool): (r: string)
    ensures |r| <= |s|
    ensures r == [] <==> forall j :: 0 <= j < |s| ==> ws(s[j])
    ensures r != [] ==> !ws(r[0]) && !ws(r[|r| - 1])
  {
    var lo := SkipLeading(s, 0, ws);
    var hi := SkipTrailing(s, lo, |s|, ws);
    assert lo < |s| ==> lo < hi;
    s[lo..hi]
  }

  /** Trimming undoes padding: white space added around a trimmed string is removed again. */
  lemma TrimPadded(a: string, m: string, b: string, ws: char -> bool)
    requires forall j :: 0 <= j < |a| ==> ws(a[j])
    requires forall j :: 0 <= j < |b| ==> ws(b[j])
    requires m != [] ==> !ws(m[0]) && !ws(m[|m| - 1])
    ensures Trim(a + m + b, ws) == m
  {
    var s := a + m + b;
    var lo := SkipLeading(s, 0, ws);
    if m == [] {
      assert forall j :: 0 <= j < |s| ==> ws(s[j]) by {
        forall j | 0 <= j < |s| ensures ws(s[j]) {
          if j < |a| { assert s[j] == a[j]; } else { assert s[j] == b[j - |a|]; }
        }
      }
    } else {
      assert forall j :: 0 <= j < |a| ==> s[j] == a[j];
      assert forall j :: |a| + |m| <= j < |s| ==> s[j] == b[j - |a| - |m|];
      assert s[|a|] == m[0];
      assert lo == |a|;
      var hi := SkipTrailing(s, lo, |s|, ws);
      assert s[|a| + |m| - 1] == m[|m| - 1];
      assert hi == |a| + |m|;
      assert s[lo..hi] == m;
    }
  }

  /** `strip` (src/xmlparse.cpp): two cursors moved inwards over C white space. */
  method Strip(s: string) returns (r: string)
    ensures r == Trim(s, IsSpace)
  {
    var start: nat := 0;
    var end: nat := |s|;
    while start < end && IsSpace(s[start])
      invariant start <= end == |s|
      invariant SkipLeading(s, start, IsSpace) == SkipLeading(s, 0, IsSpace)
    {
      start := start + 1;
    }
    while end > start && IsSpace(s[end - 1])
      invariant start <= end <= |s|
      invariant SkipTrailing(s, start, end, IsSpace) == SkipTrailing(s, start, |s|, IsSpace)
    {
      end := end - 1;
    }
    r := s[start..end];
  }
}
