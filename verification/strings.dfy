/** Character-level helpers shared by the request gate and the moderation
    handlers. Case mapping is ASCII only: request paths reach the middleware
    percent-encoded, so every character the gate sees is ASCII. */
module Strings {

  /** The characters a JavaScript regular expression's `.` refuses to match. */
  predicate IsLineTerminator(c: char) {
    c == '\n' || c == '\r' || c == '\U{2028}' || c == '\U{2029}'
  }

  /** No line terminator occurs in `s[lo..hi]`. */
  predicate NoLineTerminatorIn(s: string, lo: int, hi: int) {
    forall t :: lo <= t < hi && 0 <= t < |s| ==> !IsLineTerminator(s[t])
  }

  predicate OnOneLine(s: string) {
    NoLineTerminatorIn(s, 0, |s|)
  }

  /** `lit` occurs in `s` starting at index `i`. */
  predicate OccursAt(s: string, i: int, lit: string) {
    0 <= i && i + |lit| <= |s| && s[i..i + |lit|] == lit
  }

  /** `lit` occurs somewhere in `s` (a regular expression without anchors). */
  predicate Contains(s: string, lit: string) {
    exists i | 0 <= i <= |s| :: OccursAt(s, i, lit)
  }

  predicate IsLowerAscii(c: char) {
    'a' <= c <= 'z'
  }

  predicate IsUpperAscii(c: char) {
    'A' <= c <= 'Z'
  }

  /** `String.prototype.toUpperCase` restricted to ASCII. */
  function UpperChar(c: char): (u: char)
    ensures !IsLowerAscii(u)
    ensures !IsLowerAscii(c) ==> u == c
    ensures IsLowerAscii(c) ==> IsUpperAscii(u) && u as int + 32 == c as int
  {
    if IsLowerAscii(c) then (c as int - 32) as char else c
  }

  /** Lower-casing of one character, as used to bring a hex object id to the
      canonical lower-case form in which ids of either case are equal. */
  function LowerChar(c: char): (l: char)
    ensures !IsUpperAscii(l)
    ensures !IsUpperAscii(c) ==> l == c
    ensures IsUpperAscii(c) ==> IsLowerAscii(l) && l as int == c as int + 32
  {
    if IsUpperAscii(c) then (c as int + 32) as char else c
  }

  /** `String.prototype.toUpperCase` on an ASCII string: each lower-case
      letter becomes its capital, everything else stays. */
  function Upper(s: string): (r: string)
    ensures |r| == |s|
    ensures forall i :: 0 <= i < |r| ==> !IsLowerAscii(r[i])
    ensures forall i :: 0 <= i < |s| && IsLowerAscii(s[i]) ==> r[i] as int == s[i] as int - 32
    ensures forall i :: 0 <= i < |s| && !IsLowerAscii(s[i]) ==> r[i] == s[i]
  {
    seq(|s|, i requires 0 <= i < |s| => UpperChar(s[i]))
  }

  /** Lower-casing of an ASCII string: each capital becomes its lower-case
      letter, everything else stays. */
  function Lower(s: string): (r: string)
    ensures |r| == |s|
    ensures forall i :: 0 <= i < |r| ==> !IsUpperAscii(r[i])
    ensures forall i :: 0 <= i < |s| && IsUpperAscii(s[i]) ==> r[i] as int == s[i] as int + 32
    ensures forall i :: 0 <= i < |s| && !IsUpperAscii(s[i]) ==> r[i] == s[i]
  {
    seq(|s|, i requires 0 <= i < |s| => LowerChar(s[i]))
  }

  /** A string is its own upper-case form exactly when it has no lower-case
      letter. */
  lemma UpperFixedIff(s: string)
    ensures Upper(s) == s <==> forall i :: 0 <= i < |s| ==> !IsLowerAscii(s[i])
  {
    if forall i :: 0 <= i < |s| ==> !IsLowerAscii(s[i]) {
      assert forall i :: 0 <= i < |s| ==> Upper(s)[i] == s[i];
    }
  }

  /** A string is its own lower-case form exactly when it has no upper-case
      letter. */
  lemma LowerFixedIff(s: string)
    ensures Lower(s) == s <==> forall i :: 0 <= i < |s| ==> !IsUpperAscii(s[i])
  {
    if forall i :: 0 <= i < |s| ==> !IsUpperAscii(s[i]) {
      assert forall i :: 0 <= i < |s| ==> Lower(s)[i] == s[i];
    }
  }

  /** Upper-casing twice is upper-casing once. */
  lemma UpperIdempotent(s: string)
    ensures Upper(Upper(s)) == Upper(s)
  {
    UpperFixedIff(Upper(s));
  }

  /** Upper-casing neither adds nor removes line terminators. */
  lemma UpperKeepsLines(s: string)
    ensures OnOneLine(Upper(s)) <==> OnOneLine(s)
  {
    assert forall t :: 0 <= t < |s| ==> (IsLineTerminator(Upper(s)[t]) <==> IsLineTerminator(s[t]));
  }

  /** A string in which some character of `lit` never appears cannot contain
      `lit`. */
  lemma AbsentCharExcludes(s: string, lit: string, k: nat)
    requires k < |lit|
    requires forall i :: 0 <= i < |s| ==> s[i] != lit[k]
    ensures !Contains(s, lit)
  {
    forall i | 0 <= i <= |s| && OccursAt(s, i, lit)
      ensures false
    {
      OccursAtChar(s, i, lit, k);
    }
  }

  lemma OccursAtChar(s: string, i: int, lit: string, k: nat)
    requires OccursAt(s, i, lit)
    requires k < |lit|
    ensures s[i + k] == lit[k]
  {
    assert s[i..i + |lit|][k] == s[i + k];
  }
}
