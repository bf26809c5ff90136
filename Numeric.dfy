/** `isNumeric` (CineColombiaManager.java): does a display cell match the
    anchored pattern `^-?\d+(\.\d+)?$`? Java's `\d` without the
    UNICODE_CHARACTER_CLASS flag is the ASCII digit class `[0-9]`. */
module Numeric {

  predicate IsDigit(c: char) { '0' <= c <= '9' }

  /** `\d+` on the characters `s[lo..hi]`: one or more ASCII digits. */
  predicate DigitsIn(s: string, lo: nat, hi: nat)
    requires lo <= hi <= |s|
  {
    lo < hi && forall i :: lo <= i < hi ==> IsDigit(s[i])
  }

  /** `\d+(\.\d+)?` on the characters from `a` to the end: an integer part
      reaching the end, or an integer part, a point at some `k` and a
      fraction reaching the end. */
  predicate UnsignedFrom(s: string, a: nat)
    requires a <= |s|
  {
    DigitsIn(s, a, |s|) ||
    exists k :: a < k < |s| && s[k] == '.' && DigitsIn(s, a, k) && DigitsIn(s, k + 1, |s|)
  }

  /** The whole anchored pattern `-?\d+(\.\d+)?`, as a description of the
      strings it matches: the reference that `IsNumeric` is proved against. */
  predicate MatchesNumber(s: string) {
    UnsignedFrom(s, 0) || (|s| >= 1 && s[0] == '-' && UnsignedFrom(s, 1))
  }

  /** The index of the first non-digit of `s` at or after `from`, or `|s|`. */
  function DigitsEnd(s: string, from: nat): (e: nat)
    requires from <= |s|
    ensures from <= e <= |s|
    ensures forall i :: from <= i < e ==> IsDigit(s[i])
    ensures e < |s| ==> !IsDigit(s[e])
    decreases |s| - from
  {
    if from == |s| || !IsDigit(s[from]) then from else DigitsEnd(s, from + 1)
  }

  /** A left-to-right scan of `s` from `start`: a run of digits that must not
      be empty, then either the end or a `.` and a second non-empty run of
      digits that reaches the end. */
  predicate ScanUnsigned(s: string, start: nat)
    requires start <= |s|
  {
    var intEnd := DigitsEnd(s, start);
    intEnd > start &&
    (intEnd == |s| ||
     (s[intEnd] == '.' && intEnd + 1 < |s| && DigitsEnd(s, intEnd + 1) == |s|))
  }

  /** `isNumeric(s)`: false for the empty string; otherwise skip one leading
      `-`, if any, and scan an unsigned number. */
  function IsNumeric(s: string): bool {
    if s == [] then false
    else ScanUnsigned(s, if s[0] == '-' then 1 else 0)
  }

  /** The scan accepts what the pattern describes. */
  lemma ScanIsSound(s: string, a: nat)
    requires a <= |s| && ScanUnsigned(s, a)
    ensures UnsignedFrom(s, a)
  {
    var intEnd := DigitsEnd(s, a);
    if intEnd < |s| {
      var e2 := DigitsEnd(s, intEnd + 1);
      assert DigitsIn(s, a, intEnd) && DigitsIn(s, intEnd + 1, |s|);
    }
  }

  /** The pattern describes nothing the scan rejects. */
  lemma ScanIsComplete(s: string, a: nat)
    requires a <= |s| && UnsignedFrom(s, a)
    ensures ScanUnsigned(s, a)
  {
    var intEnd := DigitsEnd(s, a);
    if !DigitsIn(s, a, |s|) {
      var k :| a < k < |s| && s[k] == '.' && DigitsIn(s, a, k) && DigitsIn(s, k + 1, |s|);
      assert intEnd == k;
      var e2 := DigitsEnd(s, k + 1);
    }
  }

  /** `isNumeric` accepts exactly the strings the pattern describes. */
  lemma IsNumericMatches(s: string)
    ensures IsNumeric(s) <==> MatchesNumber(s)
  {
    if s != [] {
      var a := if s[0] == '-' then 1 else 0;
      if IsNumeric(s) { ScanIsSound(s, a); }
      if s[0] == '-' {
        assert !IsDigit(s[0]);
        assert !UnsignedFrom(s, 0);
      }
      if MatchesNumber(s) { ScanIsComplete(s, a); }
    }
  }

  /** The empty string is not numeric (the `isEmpty` guard). */
  lemma EmptyIsNotNumeric()
    ensures !IsNumeric("")
  {
  }
}
