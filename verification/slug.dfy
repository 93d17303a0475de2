/**
 * `slugify` (playwright_langgraph_agent.py): the lower-cased text is cut into
 * maximal runs of ASCII letters and digits (the regex `[a-zA-Z0-9]+` used with
 * `re.findall`), and the first eight runs are joined with `-`; text without
 * any run becomes "generated-test".
 */
module Slug {
  import opened Text

  const Fallback: string := "generated-test"
  const MaxTokens: nat := 8

  /** A non-empty run of `[a-zA-Z0-9]`. */
  predicate IsWord(w: string) { w != [] && forall k :: 0 <= k < |w| ==> IsAlnum(w[k]) }

  /** A character a slug may hold: a lower-case ASCII letter, a digit or `-`. */
  predicate IsSlugChar(c: char) { IsLowerLetter(c) || IsDigit(c) || c == '-' }

  /** Non-empty, slug characters only, no `-` at either end and no `--`. */
  predicate IsSlug(r: string)
  {
    && r != []
    && (forall k :: 0 <= k < |r| ==> IsSlugChar(r[k]))
    && r[0] != '-' && r[|r| - 1] != '-'
    && (forall k :: 0 <= k < |r| - 1 ==> !(r[k] == '-' && r[k + 1] == '-'))
  }

  function HyphenCount(s: string): nat
  {
    if s == [] then 0 else (if s[0] == '-' then 1 else 0) + HyphenCount(s[1..])
  }

  /** Length of the run of `[a-zA-Z0-9]` at the front of `s`. */
  function RunLength(s: string): (n: nat)
    ensures n <= |s|
    ensures forall k :: 0 <= k < n ==> IsAlnum(s[k])
    ensures n < |s| ==> !IsAlnum(s[n])
  {
    if s == [] || !IsAlnum(s[0]) then 0 else 1 + RunLength(s[1..])
  }

  /** `re.findall(r"[a-zA-Z0-9]+", s)`: the maximal runs, left to right. */
  function Tokens(s: string): (toks: seq<string>)
    ensures forall k :: 0 <= k < |toks| ==> IsWord(toks[k])
    ensures forall k, j :: 0 <= k < |toks| && 0 <= j < |toks[k]| ==> toks[k][j] in s
    decreases |s|
  {
    if s == [] then []
    else if !IsAlnum(s[0]) then Tokens(s[1..])
    else
      var n := RunLength(s);
      [s[..n]] + Tokens(s[n..])
  }

  /** `"-".join(ws)`. */
  function Join(ws: seq<string>): string
  {
    if |ws| == 0 then ""
    else if |ws| == 1 then ws[0]
    else ws[0] + "-" + Join(ws[1..])
  }

  /**
   * `"-".join(ws)` starts with the first part, ends with the last part and,
   * with two parts or more, has a hyphen right after the first part.
   */
  lemma {:induction false} JoinEnds(ws: seq<string>)
    requires |ws| > 0
    ensures var r := Join(ws);
      && |ws[0]| <= |r| && r[..|ws[0]|] == ws[0]
      && |ws[|ws| - 1]| <= |r| && r[|r| - |ws[|ws| - 1]|..] == ws[|ws| - 1]
      && (|ws| > 1 ==> |ws[0]| < |r| && r[|ws[0]|] == '-')
  {
    if |ws| > 1 {
      var rest := Join(ws[1..]);
      var r := ws[0] + "-" + rest;
      JoinEnds(ws[1..]);
      assert Join(ws) == r;
      assert r[..|ws[0]|] == ws[0];
      assert r[|r| - |ws[|ws| - 1]|..] == rest[|rest| - |ws[|ws| - 1]|..];
    }
  }

  /** `ws[:n]`. */
  function Take<T>(ws: seq<T>, n: nat): (r: seq<T>)
    ensures |r| == if |ws| <= n then |ws| else n
    ensures r == ws[..|r|]
    ensures |ws| <= n ==> r == ws
  {
    if |ws| <= n then ws else ws[..n]
  }

  /** Index of the first `c` in `s`, or `|s|` when there is none (`str.find` with `len` for -1). */
  function IndexOf(s: string, c: char): (i: nat)
    ensures i <= |s|
    ensures forall k :: 0 <= k < i ==> s[k] != c
    ensures i < |s| ==> s[i] == c
  {
    if s == [] || s[0] == c then 0 else 1 + IndexOf(s[1..], c)
  }

  /** `s.split("-")`, the inverse of Join on hyphen-free parts. */
  function Split(s: string): (parts: seq<string>)
    ensures |parts| >= 1
    decreases |s|
  {
    var i := IndexOf(s, '-');
    if i == |s| then [s] else [s[..i]] + Split(s[i + 1..])
  }

  function Slugify(text: string): (r: string)
    ensures IsSlug(r)
    ensures HyphenCount(r) < MaxTokens
  {
    var toks := Tokens(Lower(text));
    if toks == [] then
      FallbackIsSlug();
      Fallback
    else
      var head := Take(toks, MaxTokens);
      LowerTokens(Lower(text));
      JoinIsSlug(head);
      Join(head)
  }

  lemma FallbackIsSlug()
    ensures IsSlug(Fallback) && HyphenCount(Fallback) == 1
  {
    assert Fallback == Join(["generated", "test"]);
    JoinIsSlug(["generated", "test"]);
  }

  /** Every token of a string without upper-case letters is a lower-case slug word. */
  lemma LowerTokens(s: string)
    requires forall k :: 0 <= k < |s| ==> !IsUpperLetter(s[k])
    ensures forall k :: 0 <= k < |Tokens(s)| ==> IsSlugWord(Tokens(s)[k])
  {
  }

  predicate IsSlugWord(w: string)
  {
    w != [] && forall k :: 0 <= k < |w| ==> IsLowerLetter(w[k]) || IsDigit(w[k])
  }

  /** Joining lower-case words gives a slug with one hyphen fewer than there are words. */
  lemma {:induction false} JoinIsSlug(ws: seq<string>)
    requires |ws| > 0
    requires forall k :: 0 <= k < |ws| ==> IsSlugWord(ws[k])
    ensures IsSlug(Join(ws))
    ensures HyphenCount(Join(ws)) == |ws| - 1
  {
    NoHyphenInWord(ws[0]);
    if |ws| > 1 {
      var w, rest := ws[0], Join(ws[1..]);
      JoinIsSlug(ws[1..]);
      assert Join(ws) == w + "-" + rest;
      SlugThenSlug(w, rest);
      HyphenCountAppend(w + "-", rest);
      HyphenCountAppend(w, "-");
    }
  }

  /** A lower-case word, a hyphen and a slug make a slug. */
  lemma SlugThenSlug(w: string, rest: string)
    requires IsSlugWord(w) && IsSlug(rest)
    ensures IsSlug(w + "-" + rest)
  {
    var r := w + "-" + rest;
    forall k | 0 <= k < |r| - 1 ensures !(r[k] == '-' && r[k + 1] == '-') {
      if k < |w| {
        assert r[k] == w[k];
      } else if k > |w| {
        assert r[k] == rest[k - |w| - 1] && r[k + 1] == rest[k - |w|];
      }
    }
  }

  lemma {:induction false} NoHyphenInWord(w: string)
    requires forall k :: 0 <= k < |w| ==> w[k] != '-'
    ensures HyphenCount(w) == 0
  {
    if w != [] {
      NoHyphenInWord(w[1..]);
    }
  }

  lemma {:induction false} HyphenCountAppend(a: string, b: string)
    ensures HyphenCount(a + b) == HyphenCount(a) + HyphenCount(b)
  {
    if a != [] {
      assert (a + b)[1..] == a[1..] + b;
      HyphenCountAppend(a[1..], b);
    } else {
      assert a + b == b;
    }
  }

  /** There are no tokens exactly when no character is an ASCII letter or digit. */
  lemma {:induction false} TokensEmptyIff(s: string)
    ensures Tokens(s) == [] <==> forall k :: 0 <= k < |s| ==> !IsAlnum(s[k])
    decreases |s|
  {
    if s != [] && !IsAlnum(s[0]) {
      TokensEmptyIff(s[1..]);
      assert forall k :: 1 <= k < |s| ==> s[k] == s[1..][k - 1];
    }
  }

  /** A single run of letters and digits is one token. */
  lemma TokensOfWord(w: string)
    requires IsWord(w)
    ensures Tokens(w) == [w]
  {
    assert RunLength(w) == |w|;
    assert w[..|w|] == w;
    assert Tokens(w[|w|..]) == [];
  }

  /** A character outside `[a-zA-Z0-9]` separates the tokens on its two sides. */
  lemma {:induction false} TokensSeparated(a: string, c: char, b: string)
    requires !IsAlnum(c)
    ensures Tokens(a + [c] + b) == Tokens(a) + Tokens(b)
    decreases |a|
  {
    var s := a + [c] + b;
    if a == [] {
      assert s[1..] == b;
    } else if !IsAlnum(a[0]) {
      assert s[1..] == a[1..] + [c] + b;
      TokensSeparated(a[1..], c, b);
    } else {
      var n := RunLength(a);
      RunLengthStops(a, c, b);
      assert s[..n] == a[..n];
      assert s[n..] == a[n..] + [c] + b;
      TokensSeparated(a[n..], c, b);
    }
  }

  lemma {:induction false} RunLengthStops(a: string, c: char, b: string)
    requires !IsAlnum(c)
    ensures RunLength(a + [c] + b) == RunLength(a)
  {
    if a == [] {
    } else if IsAlnum(a[0]) {
      assert (a + [c] + b)[1..] == a[1..] + [c] + b;
      RunLengthStops(a[1..], c, b);
    }
  }

  /** Split undoes Join on non-empty lists of hyphen-free parts. */
  lemma {:induction false} SplitJoin(ws: seq<string>)
    requires |ws| > 0
    requires forall k :: 0 <= k < |ws| ==> '-' !in ws[k]
    ensures Split(Join(ws)) == ws
  {
    var w := ws[0];
    if |ws| == 1 {
      assert IndexOf(w, '-') == |w|;
    } else {
      SplitJoin(ws[1..]);
      SplitAtFirst(w, Join(ws[1..]));
      assert ws == [w] + ws[1..];
    }
  }

  /** Split cuts at the first hyphen. */
  lemma SplitAtFirst(w: string, rest: string)
    requires '-' !in w
    ensures Split(w + "-" + rest) == [w] + Split(rest)
  {
    var s := w + "-" + rest;
    var i := IndexOf(s, '-');
    assert s[|w|] == '-';
    assert forall k :: 0 <= k < |w| ==> s[k] == w[k];
    assert i == |w|;
    assert s[..i] == w && s[i + 1..] == rest;
  }

  /**
   * The two outcomes of `slugify`: text with no ASCII letter or digit gives
   * "generated-test"; otherwise splitting the slug at its hyphens gives back
   * the first eight tokens of the lower-cased text.
   */
  lemma SlugifyCases(text: string)
    ensures (forall k :: 0 <= k < |text| ==> !IsAlnum(text[k])) ==> Slugify(text) == Fallback
    ensures (exists k :: 0 <= k < |text| && IsAlnum(text[k])) ==>
              var toks := Tokens(Lower(text));
              && 1 <= |toks|
              && Split(Slugify(text)) == Take(toks, MaxTokens)
  {
    var low := Lower(text);
    TokensEmptyIff(low);
    assert (forall k :: 0 <= k < |text| ==> !IsAlnum(text[k])) <==> (forall k :: 0 <= k < |low| ==> !IsAlnum(low[k]));
    var toks := Tokens(low);
    if toks != [] {
      SlugifySplits(text, low, toks);
    }
  }

  lemma SlugifySplits(text: string, low: string, toks: seq<string>)
    requires low == Lower(text) && toks == Tokens(low) && toks != []
    ensures Split(Slugify(text)) == Take(toks, MaxTokens)
  {
    var head := Take(toks, MaxTokens);
    assert Slugify(text) == Join(head);
    LowerTokens(low);
    HyphenFreeWords(head);
    SplitJoin(head);
  }

  lemma HyphenFreeWords(ws: seq<string>)
    requires forall k :: 0 <= k < |ws| ==> IsSlugWord(ws[k])
    ensures forall k :: 0 <= k < |ws| ==> '-' !in ws[k]
  {
    forall k | 0 <= k < |ws| ensures '-' !in ws[k] {
      assert IsSlugWord(ws[k]);
    }
  }

  /** Lower-casing the text first does not change its slug. */
  lemma SlugifyIgnoresCase(text: string)
    ensures Slugify(Lower(text)) == Slugify(text)
  {
    LowerIdempotent(text);
  }
}
