/**
 * `extract_fenced_block` (playwright_langgraph_agent.py): the first match of
 * the regular expression "```(?:[a-zA-Z0-9_+-]+)?\n(.*?)```" with DOTALL,
 * stripped; without a match, the whole text stripped.
 */
module Fence {
  import opened Wrappers
  import opened Text

  /** The info-string class `[a-zA-Z0-9_+-]`. */
  predicate IsTagChar(c: char) { IsAlnum(c) || c == '_' || c == '+' || c == '-' }

  /** Three backticks start at index `i` of `s`. */
  predicate TripleAt(s: string, i: int)
  {
    0 <= i && i + 3 <= |s| && s[i] == '`' && s[i + 1] == '`' && s[i + 2] == '`'
  }

  /**
   * A match of the pattern: three backticks at `open`, a possibly empty tag
   * of `[a-zA-Z0-9_+-]` characters, a newline ending at `bodyStart`, the body
   * `s[bodyStart..bodyEnd]`, and three backticks at `bodyEnd`.
   */
  datatype Match = Match(open: nat, bodyStart: nat, bodyEnd: nat)

  /**
   * The reference reading of the pattern at one position: the regex engine's
   * choices (greedy tag, lazy body) leave at most one such match per opening
   * position, and the body ends at the first closing fence after it starts.
   */
  predicate IsMatch(s: string, m: Match)
  {
    && TripleAt(s, m.open)
    && m.open + 4 <= m.bodyStart <= m.bodyEnd
    && TripleAt(s, m.bodyEnd)
    && s[m.bodyStart - 1] == '\n'
    && (forall k :: m.open + 3 <= k < m.bodyStart - 1 ==> IsTagChar(s[k]))
    && (forall k :: m.bodyStart <= k < m.bodyEnd ==> !TripleAt(s, k))
  }

  /** No match of the pattern starts at position `p`. */
  ghost predicate NoMatchAt(s: string, p: nat)
  {
    forall m: Match :: m.open == p ==> !IsMatch(s, m)
  }

  /** The number of `[a-zA-Z0-9_+-]` characters from index `i` on. */
  function TagRun(s: string, i: nat): (n: nat)
    requires i <= |s|
    ensures i + n <= |s|
    ensures forall k :: i <= k < i + n ==> IsTagChar(s[k])
    ensures i + n < |s| ==> !IsTagChar(s[i + n])
    decreases |s| - i
  {
    if i == |s| || !IsTagChar(s[i]) then 0 else 1 + TagRun(s, i + 1)
  }

  /** The first index at or after `i` where three backticks start. */
  function FindTriple(s: string, i: nat): (r: Option<nat>)
    ensures r.Some? ==> i <= r.value && TripleAt(s, r.value)
    ensures r.Some? ==> forall k :: i <= k < r.value ==> !TripleAt(s, k)
    ensures r.None? ==> forall k :: i <= k ==> !TripleAt(s, k)
    decreases |s| - i
  {
    if i + 3 > |s| then None
    else if TripleAt(s, i) then Some(i)
    else FindTriple(s, i + 1)
  }

  /** The match of the pattern at position `p`, if there is one. */
  function MatchAt(s: string, p: nat): (r: Option<Match>)
    ensures r.Some? ==> IsMatch(s, r.value) && r.value.open == p
    ensures r.None? ==> NoMatchAt(s, p)
  {
    if !TripleAt(s, p) then None
    else
      var nl := p + 3 + TagRun(s, p + 3);
      if nl < |s| && s[nl] == '\n' then
        match FindTriple(s, nl + 1)
        case Some(e) => Some(Match(p, nl + 1, e))
        case None => None
      else None
  }

  /** `re.search`: the leftmost match starting at or after `p`. */
  function Search(s: string, p: nat): (r: Option<Match>)
    ensures r.Some? ==> IsMatch(s, r.value) && p <= r.value.open
    ensures r.Some? ==> forall q :: p <= q < r.value.open ==> NoMatchAt(s, q)
    ensures r.None? ==> forall q :: p <= q ==> NoMatchAt(s, q)
    decreases |s| - p
  {
    if p >= |s| then
      assert forall q :: p <= q ==> NoMatchAt(s, q);
      None
    else
      match MatchAt(s, p)
      case Some(m) => Some(m)
      case None => Search(s, p + 1)
  }

  /** `extract_fenced_block`. */
  function ExtractFencedBlock(text: string): (r: string)
    ensures NoOuterSpace(r)
  {
    match Search(text, 0)
    case Some(m) => Strip(text[m.bodyStart..m.bodyEnd])
    case None => Strip(text)
  }

  /** At one opening position the pattern matches in at most one way. */
  lemma MatchUnique(s: string, m1: Match, m2: Match)
    requires IsMatch(s, m1) && IsMatch(s, m2) && m1.open == m2.open
    ensures m1 == m2
  {
  }

  /** The body of a match holds no three backticks in a row. */
  lemma BodyHasNoFence(s: string, m: Match)
    requires IsMatch(s, m)
    ensures var body := s[m.bodyStart..m.bodyEnd];
      forall j :: !TripleAt(body, j)
  {
    var body := s[m.bodyStart..m.bodyEnd];
    forall j | TripleAt(body, j) ensures false {
      assert TripleAt(s, m.bodyStart + j);
    }
  }

  lemma Matched(s: string, m: Match)
    requires IsMatch(s, m)
    ensures !NoMatchAt(s, m.open)
  {
  }

  /** With no match anywhere, the whole text is stripped. */
  lemma ExtractWithoutFence(text: string)
    requires forall q :: NoMatchAt(text, q)
    ensures ExtractFencedBlock(text) == Strip(text)
  {
    var r := Search(text, 0);
    if r.Some? {
      Matched(text, r.value);
      assert false;
    }
  }

  /**
   * With a match and none further left, the result is the stripped body of
   * that match, and that body contains no three backticks in a row.
   */
  lemma ExtractLeftmostFence(text: string, m: Match)
    requires IsMatch(text, m)
    requires forall q: nat :: q < m.open ==> NoMatchAt(text, q)
    ensures ExtractFencedBlock(text) == Strip(text[m.bodyStart..m.bodyEnd])
    ensures forall j :: !TripleAt(text[m.bodyStart..m.bodyEnd], j)
  {
    BodyHasNoFence(text, m);
    var r := Search(text, 0);
    if r.None? {
      Matched(text, m);
      assert false;
    } else if r.value.open < m.open {
      Matched(text, r.value);
      assert false;
    } else if m.open < r.value.open {
      Matched(text, m);
      assert false;
    } else {
      MatchUnique(text, m, r.value);
    }
  }

  function Shift(m: Match, d: nat): Match
  {
    Match(m.open + d, m.bodyStart + d, m.bodyEnd + d)
  }

  /** Inside the stripped text the pattern matches exactly where it matches in the whole text, shifted. */
  lemma ShiftMatch(text: string, t: string, i: nat, m: Match)
    requires IsStripOf(text, t, i)
    ensures IsMatch(t, m) <==> IsMatch(text, Shift(m, i))
  {
    assert forall k :: 0 <= k < |t| ==> t[k] == text[i + k];
    var M := Shift(m, i);
    if IsMatch(text, M) {
      assert m.bodyEnd + 3 <= |t| by {
        MatchInside(text, t, i, M);
      }
      assert forall k :: m.bodyStart <= k < m.bodyEnd ==> (TripleAt(t, k) ==> TripleAt(text, k + i));
    }
    if IsMatch(t, m) {
      assert forall k :: M.bodyStart <= k < M.bodyEnd ==> (TripleAt(text, k) ==> TripleAt(t, k - i));
    }
  }

  /** A match never begins or ends in the whitespace that Strip removes. */
  lemma MatchInside(text: string, t: string, i: nat, M: Match)
    requires IsStripOf(text, t, i) && IsMatch(text, M)
    ensures i <= M.open && M.bodyEnd + 3 <= i + |t|
  {
    assert forall k :: 0 <= k < i ==> IsSpace(text[k]);
    assert forall k :: i + |t| <= k < |text| ==> IsSpace(text[k]);
    assert text[M.open] == '`' && text[M.bodyEnd + 2] == '`';
  }

  /** Positions where no match starts in the whole text give positions where none starts in the stripped text. */
  lemma ShiftNoMatch(text: string, t: string, i: nat)
    requires IsStripOf(text, t, i)
    ensures forall q: nat :: NoMatchAt(text, q + i) ==> NoMatchAt(t, q)
  {
    forall m: Match | NoMatchAt(text, m.open + i) ensures !IsMatch(t, m) {
      ShiftMatch(text, t, i, m);
    }
  }

  /**
   * Extracting from the stripped text gives the same block as extracting
   * from the text itself (the healer's reply is stripped before extraction).
   */
  lemma ExtractIgnoresOuterSpace(text: string)
    ensures ExtractFencedBlock(Strip(text)) == ExtractFencedBlock(text)
  {
    var t, i := Strip(text), LeadingSpace(text);
    ShiftNoMatch(text, t, i);
    var r := Search(text, 0);
    if r.None? {
      ExtractWithoutFence(t);
      StripIdempotent(text);
    } else {
      ExtractShifted(text, t, i, r.value);
    }
  }

  lemma ExtractShifted(text: string, t: string, i: nat, M: Match)
    requires IsStripOf(text, t, i) && Search(text, 0) == Some(M)
    requires forall q: nat :: NoMatchAt(text, q + i) ==> NoMatchAt(t, q)
    ensures ExtractFencedBlock(t) == ExtractFencedBlock(text)
  {
    var m := LeftmostInStripped(text, t, i, M);
    ExtractLeftmostFence(t, m);
  }

  lemma LeftmostInStripped(text: string, t: string, i: nat, M: Match) returns (m: Match)
    requires IsStripOf(text, t, i) && Search(text, 0) == Some(M)
    requires forall q: nat :: NoMatchAt(text, q + i) ==> NoMatchAt(t, q)
    ensures IsMatch(t, m) && forall q: nat :: q < m.open ==> NoMatchAt(t, q)
    ensures t[m.bodyStart..m.bodyEnd] == text[M.bodyStart..M.bodyEnd]
  {
    MatchInside(text, t, i, M);
    m := Match(M.open - i, M.bodyStart - i, M.bodyEnd - i);
    assert Shift(m, i) == M;
    ShiftMatch(text, t, i, m);
    forall q: nat | q < m.open ensures NoMatchAt(t, q) {
      assert NoMatchAt(text, q + i);
    }
    SliceOfSlice(text, i, i + |t|, m.bodyStart, m.bodyEnd);
  }

  lemma SliceOfSlice(s: string, i: nat, j: nat, a: nat, b: nat)
    requires i <= j <= |s| && a <= b <= j - i
    ensures s[i..j][a..b] == s[i + a..i + b]
  {
    assert forall k :: 0 <= k < b - a ==> s[i..j][a..b][k] == s[i + a..i + b][k];
  }

  const ExampleReply: string := "Here:\n```ts\ntest();\n```\n"

  /** A fenced reply with a language tag yields the code inside the fence. */
  lemma ExtractTaggedExample()
    ensures ExtractFencedBlock(ExampleReply) == "test();"
  {
    var m := Match(6, 12, 20);
    ExampleMatch();
    ExtractLeftmostFence(ExampleReply, m);
    ExampleStrip();
  }

  lemma ExampleMatch()
    ensures IsMatch(ExampleReply, Match(6, 12, 20))
    ensures forall q: nat :: q < 6 ==> NoMatchAt(ExampleReply, q)
    ensures ExampleReply[12..20] == "test();\n"
  {
    var s := ExampleReply;
    assert s[12..20] == "test();\n";
    ExampleNoEarlyTicks();
    assert forall k :: 12 <= k < 20 ==> s[k] != '`';
  }

  lemma ExampleNoEarlyTicks()
    ensures forall q: nat :: q < 6 ==> !TripleAt(ExampleReply, q)
  {
    var s := ExampleReply;
    assert forall k :: 0 <= k < 6 ==> s[k] != '`';
  }

  lemma ExampleStrip()
    ensures Strip("test();\n") == "test();"
  {
    var body := "test();\n";
    assert IsStripOf(body, "test();", 0) by {
      assert body[..0] == [] && body[7..] == "\n" && body[0..7] == "test();";
    }
    StripUnique(body, Strip(body), LeadingSpace(body), "test();", 0);
  }
}
