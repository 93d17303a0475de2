/**
 * ASCII character classes and the Python `str` methods the agent relies on:
 * `lower()`, `upper()` and `strip()`, restricted to ASCII.
 */
module Text {

  predicate IsDigit(c: char) { '0' <= c <= '9' }

  predicate IsLowerLetter(c: char) { 'a' <= c <= 'z' }

  predicate IsUpperLetter(c: char) { 'A' <= c <= 'Z' }

  /** The character class `[a-zA-Z0-9]`. */
  predicate IsAlnum(c: char) { IsDigit(c) || IsLowerLetter(c) || IsUpperLetter(c) }

  /** Python's `str.isspace` on ASCII: space, `\t` `\n` `\v` `\f` `\r` and the separators 0x1C-0x1F. */
  predicate IsSpace(c: char) { c == ' ' || '\t' <= c <= '\r' || '\U{1C}' <= c <= '\U{1F}' }

  /** Every character of `s` from index `lo` up to `hi` is whitespace. */
  predicate SpaceBetween(s: string, lo: int, hi: int)
    requires 0 <= lo && hi <= |s|
  {
    forall k :: lo <= k < hi ==> IsSpace(s[k])
  }

  predicate AllSpace(s: string) { SpaceBetween(s, 0, |s|) }

  /** No whitespace at either end. */
  predicate NoOuterSpace(s: string) { s == [] || (!IsSpace(s[0]) && !IsSpace(s[|s| - 1])) }

  function LowerChar(c: char): char
  {
    if IsUpperLetter(c) then (c as int + 32) as char else c
  }

  function UpperChar(c: char): char
  {
    if IsLowerLetter(c) then (c as int - 32) as char else c
  }

  /** `s.lower()` on ASCII letters; every other character is kept. */
  function Lower(s: string): (r: string)
    ensures |r| == |s|
    ensures forall k :: 0 <= k < |r| ==> !IsUpperLetter(r[k])
    ensures forall k :: 0 <= k < |r| ==> (IsAlnum(r[k]) <==> IsAlnum(s[k]))
    ensures forall k :: 0 <= k < |r| ==> IsUpperLetter(s[k]) ==> r[k] as int == s[k] as int + 32
    ensures forall k :: 0 <= k < |r| ==> !IsUpperLetter(s[k]) ==> r[k] == s[k]
  {
    seq(|s|, k requires 0 <= k < |s| => LowerChar(s[k]))
  }

  /** `s.upper()` on ASCII letters; every other character is kept. */
  function Upper(s: string): (r: string)
    ensures |r| == |s|
    ensures forall k :: 0 <= k < |r| ==> !IsLowerLetter(r[k])
    ensures forall k :: 0 <= k < |r| ==> IsLowerLetter(s[k]) ==> r[k] as int == s[k] as int - 32
    ensures forall k :: 0 <= k < |r| ==> !IsLowerLetter(s[k]) ==> r[k] == s[k]
  {
    seq(|s|, k requires 0 <= k < |s| => UpperChar(s[k]))
  }

  /**
   * Comparing the upper-cased text with a word that has no lower-case letter
   * is comparing the lower-cased text with the lower-cased word: both say
   * the text is that word in some letter case.
   */
  lemma UpperEqualsIffLower(t: string, w: string)
    requires forall k :: 0 <= k < |w| ==> !IsLowerLetter(w[k])
    ensures Upper(t) == w <==> Lower(t) == Lower(w)
  {
    if |t| == |w| {
      forall k | 0 <= k < |t| ensures Upper(t)[k] == w[k] <==> Lower(t)[k] == Lower(w)[k] {
        CaseChar(t[k], w[k]);
      }
      if Lower(t) == Lower(w) {
        assert forall k :: 0 <= k < |t| ==> Upper(t)[k] == w[k];
      }
      if Upper(t) == w {
        assert forall k :: 0 <= k < |t| ==> Lower(t)[k] == Lower(w)[k];
      }
    }
  }

  lemma CaseChar(c: char, x: char)
    requires !IsLowerLetter(x)
    ensures UpperChar(c) == x <==> LowerChar(c) == LowerChar(x)
  {
  }

  /** Lower-casing twice is lower-casing once. */
  lemma LowerIdempotent(s: string)
    ensures Lower(Lower(s)) == Lower(s)
  {
  }

  /** The number of whitespace characters at the front of `s`. */
  function LeadingSpace(s: string): (n: nat)
    ensures n <= |s|
    ensures SpaceBetween(s, 0, n)
    ensures n < |s| ==> !IsSpace(s[n])
  {
    if s == [] || !IsSpace(s[0]) then 0
    else
      var m := LeadingSpace(s[1..]);
      1 + m
  }

  /** The number of whitespace characters at the back of `s`. */
  function TrailingSpace(s: string): (n: nat)
    ensures n <= |s|
    ensures SpaceBetween(s, |s| - n, |s|)
    ensures n < |s| ==> !IsSpace(s[|s| - n - 1])
  {
    if s == [] || !IsSpace(s[|s| - 1]) then 0
    else
      var init := s[..|s| - 1];
      1 + TrailingSpace(init)
  }

  /**
   * `r` is what is left of `s` once the whitespace run of length `i` at its
   * front and a whitespace run at its back are removed, and `r` has no
   * whitespace at either end.
   */
  predicate IsStripOf(s: string, r: string, i: nat)
  {
    && i + |r| <= |s|
    && s[i..i + |r|] == r
    && SpaceBetween(s, 0, i)
    && SpaceBetween(s, i + |r|, |s|)
    && NoOuterSpace(r)
  }

  /** `s.strip()`: removes leading and trailing whitespace. */
  function Strip(s: string): (r: string)
    ensures |r| <= |s|
    ensures NoOuterSpace(r)
    ensures IsStripOf(s, r, LeadingSpace(s))
    ensures r == [] <==> AllSpace(s)
  {
    var i := LeadingSpace(s);
    if i == |s| then []
    else
      var j := TrailingSpace(s);
      assert i < |s| - j;
      s[i..|s| - j]
  }

  /**
   * The stripped string is uniquely determined: any two candidates that
   * satisfy IsStripOf are the same string.
   */
  lemma StripUnique(s: string, r1: string, i1: nat, r2: string, i2: nat)
    requires IsStripOf(s, r1, i1) && IsStripOf(s, r2, i2)
    ensures r1 == r2
  {
    if r1 != [] && r2 != [] {
      // Both begin at the first non-space character of s and end at its last one.
      assert s[i1] == r1[0] && s[i2] == r2[0];
      assert s[i1 + |r1| - 1] == r1[|r1| - 1] && s[i2 + |r2| - 1] == r2[|r2| - 1];
    }
  }

  /** Stripping twice is stripping once. */
  lemma StripIdempotent(s: string)
    ensures Strip(Strip(s)) == Strip(s)
  {
    var r := Strip(s);
    assert IsStripOf(r, r, 0) by {
      assert r[0..|r|] == r;
    }
    StripUnique(r, Strip(r), LeadingSpace(r), r, 0);
  }
}
