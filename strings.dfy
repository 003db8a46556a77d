/**
 * The pieces of Python's string library that the scorer and the
 * classifiers rely on: str.split() with no argument, re.findall(r'\b\w+\b'),
 * str.lower(), str.strip(), str.count(ch) and the `in` substring test.
 */
module Strings {

  /** Python's str.isspace(): the characters str.split() and str.strip() drop. */
  predicate IsSpace(c: char) {
    || ('\t' <= c <= '\r')
    || ('\U{1C}' <= c <= ' ')
    || c == '\U{85}' || c == '\U{A0}' || c == '\U{1680}'
    || ('\U{2000}' <= c <= '\U{200A}')
    || c == '\U{2028}' || c == '\U{2029}' || c == '\U{202F}' || c == '\U{205F}' || c == '\U{3000}'
  }

  /** The ASCII part of the regular-expression class \w. */
  predicate IsWordChar(c: char) {
    ('a' <= c <= 'z') || ('A' <= c <= 'Z') || ('0' <= c <= '9') || c == '_'
  }

  predicate IsAsciiLetter(c: char) {
    ('a' <= c <= 'z') || ('A' <= c <= 'Z')
  }

  /** str.lower() on one ASCII character; every other character is kept. */
  function Lower(c: char): (d: char)
    ensures IsAsciiLetter(c) <==> IsAsciiLetter(d)
    ensures !('A' <= d <= 'Z')
    ensures !('A' <= c <= 'Z') ==> d == c
  {
    if 'A' <= c <= 'Z' then (c as int + 32) as char else c
  }

  function LowerStr(s: string): (t: string)
    ensures |t| == |s|
    ensures forall i :: 0 <= i < |s| ==> t[i] == Lower(s[i])
  {
    seq(|s|, i requires 0 <= i < |s| => Lower(s[i]))
  }

  lemma LowerStrIdempotent(s: string)
    ensures LowerStr(LowerStr(s)) == LowerStr(s)
  {
  }

  /** Length of the longest prefix of `s` whose characters are all separators (`seps`) or all not. */
  function LeadingRun(s: string, sep: char -> bool, seps: bool): (n: nat)
    ensures n <= |s|
  {
    if s == [] || sep(s[0]) != seps then 0 else 1 + LeadingRun(s[1..], sep, seps)
  }

  /** The leading run is all of one kind, and the character after it is of the other. */
  lemma {:induction false} RunFacts(s: string, sep: char -> bool, seps: bool)
    ensures var n := LeadingRun(s, sep, seps);
      && (forall i :: 0 <= i < n ==> sep(s[i]) == seps)
      && (n < |s| ==> sep(s[n]) != seps)
    decreases |s|
  {
    if s != [] && sep(s[0]) == seps {
      RunFacts(s[1..], sep, seps);
      var n := LeadingRun(s, sep, seps);
      forall i | 0 < i < n ensures sep(s[i]) == seps {
        assert s[i] == s[1..][i - 1];
      }
    }
  }

  /**
   * The maximal runs of characters that are not separators, left to right.
   * Every token is non-empty and free of separators; TokensSplit and
   * TokensUnique show that the tokens are exactly the maximal runs.
   */
  function Tokens(s: string, sep: char -> bool): (ts: seq<string>)
    ensures forall k :: 0 <= k < |ts| ==> |ts[k]| > 0
    ensures forall k, i :: 0 <= k < |ts| && 0 <= i < |ts[k]| ==> !sep(ts[k][i])
    decreases |s|
  {
    var i := LeadingRun(s, sep, true);
    if i == |s| then []
    else
      var n := LeadingRun(s[i..], sep, false);
      RunFacts(s, sep, true);
      RunFacts(s[i..], sep, false);
      var token := s[i..][..n];
      assert |token| > 0 && forall j :: 0 <= j < |token| ==> !sep(token[j]);
      var rest := Tokens(s[i + n..], sep);
      assert forall k :: 0 < k <= |rest| ==> ([token] + rest)[k] == rest[k - 1];
      [token] + rest
  }

  /** str.split() with no argument. */
  function Words(s: string): seq<string> {
    Tokens(s, IsSpace)
  }

  predicate IsNotWordChar(c: char) {
    !IsWordChar(c)
  }

  /**
   * re.findall(r'\b\w+\b', s): at the start of every maximal run of word
   * characters the boundary holds, \w+ takes the whole run, and the
   * boundary holds again after it, so the matches are exactly the runs.
   */
  function RegexWords(s: string): seq<string> {
    Tokens(s, IsNotWordChar)
  }

  /** gs[0] + ts[0] + gs[1] + ts[1] + ... + ts[k - 1] + gs[k]: the tokens put back between the gaps. */
  function Weave(gs: seq<string>, ts: seq<string>): (s: string)
    requires |gs| == |ts| + 1
    ensures |gs[0]| <= |s| && s[..|gs[0]|] == gs[0]
    decreases |ts|
  {
    if ts == [] then gs[0] else gs[0] + ts[0] + Weave(gs[1..], ts[1..])
  }

  /**
   * `s` is the tokens `ts` put back between the gaps `gs`: every token is a
   * non-empty run without separators, every gap holds only separators, and
   * every gap between two tokens is non-empty.
   */
  predicate IsSplit(s: string, sep: char -> bool, gs: seq<string>, ts: seq<string>) {
    && |gs| == |ts| + 1
    && (forall k :: 0 <= k < |ts| ==> |ts[k]| > 0 && forall i :: 0 <= i < |ts[k]| ==> !sep(ts[k][i]))
    && (forall k :: 0 <= k < |gs| ==> forall i :: 0 <= i < |gs[k]| ==> sep(gs[k][i]))
    && (forall k :: 0 < k < |ts| ==> |gs[k]| > 0)
    && s == Weave(gs, ts)
  }

  /** The runs of separators around the tokens of `s`, left to right. */
  function Gaps(s: string, sep: char -> bool): (gs: seq<string>)
    ensures |gs| > 0
    decreases |s|
  {
    var i := LeadingRun(s, sep, true);
    if i == |s| then [s]
    else
      var n := LeadingRun(s[i..], sep, false);
      [s[..i]] + Gaps(s[i + n..], sep)
  }

  /** The tokens and the gaps of a text split it, and weave back into it. */
  lemma {:induction false} TokensSplit(s: string, sep: char -> bool)
    ensures IsSplit(s, sep, Gaps(s, sep), Tokens(s, sep))
    decreases |s|
  {
    var i := LeadingRun(s, sep, true);
    if i < |s| {
      var n := LeadingRun(s[i..], sep, false);
      var rest := s[i + n..];
      TokensSplit(rest, sep);
      SplitStep(s, sep, i, n);
      var gs, ts := Gaps(s, sep), Tokens(s, sep);
      assert s[|gs[0]| + |ts[0]|..] == rest;
      RunFacts(s, sep, true);
      SplitCons(s, sep, gs, ts);
    } else {
      SplitDone(s, sep, i);
    }
  }

  /** A text of separators only is one gap and no token. */
  lemma SplitDone(s: string, sep: char -> bool, i: nat)
    requires i == LeadingRun(s, sep, true) && i == |s|
    ensures IsSplit(s, sep, Gaps(s, sep), Tokens(s, sep))
  {
    RunFacts(s, sep, true);
    assert Gaps(s, sep) == [s];
    assert Tokens(s, sep) == [];
  }

  /** One step of Tokens and Gaps: the leading gap, the first token, then the split of the rest. */
  lemma SplitStep(s: string, sep: char -> bool, i: nat, n: nat)
    requires i == LeadingRun(s, sep, true) && i < |s| && n == LeadingRun(s[i..], sep, false)
    ensures i + n <= |s|
    ensures Tokens(s, sep) != [] && Gaps(s, sep)[0] == s[..i] && Tokens(s, sep)[0] == s[i..][..n]
    ensures Gaps(s, sep)[1..] == Gaps(s[i + n..], sep) && Tokens(s, sep)[1..] == Tokens(s[i + n..], sep)
    ensures s == Gaps(s, sep)[0] + Tokens(s, sep)[0] + s[|Gaps(s, sep)[0]| + |Tokens(s, sep)[0]|..]
    ensures |Tokens(s, sep)| > 1 ==> |Gaps(s, sep)[1]| > 0
  {
    var rest := s[i + n..];
    GapsUnfold(s, sep, i, n);
    TokensUnfold(s, sep, i, n);
    GapAfterToken(s, sep, i, n);
    GapsHead(rest, sep);
    if rest == [] {
      NoTokens(rest, sep);
    }
    Cut(s, i, n);
  }

  /** A text is its first i characters, the next n, and the rest. */
  lemma Cut(s: string, i: nat, n: nat)
    requires i + n <= |s|
    ensures s == s[..i] + s[i..][..n] + s[i + n..]
  {
    assert s[i..][..n] == s[i..i + n];
  }

  lemma GapsUnfold(s: string, sep: char -> bool, i: nat, n: nat)
    requires i == LeadingRun(s, sep, true) && i < |s| && n == LeadingRun(s[i..], sep, false)
    ensures Gaps(s, sep) == [s[..i]] + Gaps(s[i + n..], sep)
  {
  }

  lemma TokensUnfold(s: string, sep: char -> bool, i: nat, n: nat)
    requires i == LeadingRun(s, sep, true) && i < |s| && n == LeadingRun(s[i..], sep, false)
    ensures Tokens(s, sep) == [s[i..][..n]] + Tokens(s[i + n..], sep)
  {
  }

  /** What follows a token is empty or starts a non-empty gap. */
  lemma GapAfterToken(s: string, sep: char -> bool, i: nat, n: nat)
    requires i == LeadingRun(s, sep, true) && i < |s| && n == LeadingRun(s[i..], sep, false)
    ensures i + n <= |s|
    ensures i + n < |s| ==> LeadingRun(s[i + n..], sep, true) > 0
  {
    var u := s[i..];
    GapAfterRun(u, sep, n);
    if i + n < |s| {
      assert s[i + n..] == u[n..];
    }
  }

  /** A run of non-separators that stops before the end stops at a separator. */
  lemma GapAfterRun(u: string, sep: char -> bool, n: nat)
    requires n == LeadingRun(u, sep, false)
    ensures n < |u| ==> LeadingRun(u[n..], sep, true) > 0
  {
    RunFacts(u, sep, false);
    if n < |u| {
      assert u[n..][0] == u[n];
      RunStartsWith(u[n..], sep, true);
    }
  }

  lemma NoTokens(s: string, sep: char -> bool)
    requires s == []
    ensures Tokens(s, sep) == []
  {
  }

  /** A text whose first character is of the run's kind has a non-empty leading run. */
  lemma RunStartsWith(s: string, sep: char -> bool, seps: bool)
    requires s != [] && sep(s[0]) == seps
    ensures LeadingRun(s, sep, seps) > 0
  {
  }

  /** The first gap is the leading run of separators. */
  lemma GapsHead(s: string, sep: char -> bool)
    ensures Gaps(s, sep)[0] == s[..LeadingRun(s, sep, true)]
  {
  }

  /** A run that ends where the predicate first fails is the leading run. */
  lemma LeadingRunExact(s: string, sep: char -> bool, seps: bool, m: nat)
    requires m <= |s| && forall j :: 0 <= j < m ==> sep(s[j]) == seps
    requires m < |s| ==> sep(s[m]) != seps
    ensures LeadingRun(s, sep, seps) == m
  {
    RunFacts(s, sep, seps);
  }

  /** A split whose tail splits the rest of the text, and whose head gap and token are proper, splits the text. */
  lemma SplitCons(s: string, sep: char -> bool, gs: seq<string>, ts: seq<string>)
    requires |gs| == |ts| + 1 && ts != []
    requires |gs[0]| + |ts[0]| <= |s| && s == gs[0] + ts[0] + s[|gs[0]| + |ts[0]|..]
    requires IsSplit(s[|gs[0]| + |ts[0]|..], sep, gs[1..], ts[1..])
    requires |ts[0]| > 0 && forall i :: 0 <= i < |ts[0]| ==> !sep(ts[0][i])
    requires forall i :: 0 <= i < |gs[0]| ==> sep(gs[0][i])
    requires |ts| > 1 ==> |gs[1]| > 0
    ensures IsSplit(s, sep, gs, ts)
  {
    forall k | 0 < k < |ts| ensures |gs[k]| > 0 {
      if k > 1 { assert gs[k] == gs[1..][k - 1]; }
    }
    forall k | 0 < k < |gs| ensures forall i :: 0 <= i < |gs[k]| ==> sep(gs[k][i]) {
      assert gs[k] == gs[1..][k - 1];
    }
    forall k | 0 < k < |ts| ensures |ts[k]| > 0 && forall i :: 0 <= i < |ts[k]| ==> !sep(ts[k][i]) {
      assert ts[k] == ts[1..][k - 1];
    }
  }

  /**
   * The split is unique: any gaps and tokens that weave back into `s` under
   * the rules of IsSplit are exactly its gaps and tokens.
   */
  lemma {:induction false} TokensUnique(s: string, sep: char -> bool, gs: seq<string>, ts: seq<string>)
    requires IsSplit(s, sep, gs, ts)
    ensures ts == Tokens(s, sep) && gs == Gaps(s, sep)
    decreases |ts|
  {
    var g := gs[0];
    var i := LeadingRun(s, sep, true);
    if ts == [] {
      assert s == g;
      LeadingRunExact(s, sep, true, |s|);
    } else {
      var t := ts[0];
      var w := Weave(gs[1..], ts[1..]);
      assert s == g + t + w;
      assert s[|g|] == t[0];
      LeadingRunExact(s, sep, true, |g|);
      assert s[i..] == t + w;
      SplitTail(gs, ts, sep);
      assert (t + w)[|t|..] == w;
      LeadingRunExact(t + w, sep, false, |t|);
      var n := LeadingRun(s[i..], sep, false);
      assert s[i..][..n] == t;
      assert s[i + n..] == w;
      TokensUnique(w, sep, gs[1..], ts[1..]);
      assert ts == [t] + ts[1..] && gs == [g] + gs[1..];
    }
  }

  /** What follows the first token of a split is empty or starts with a separator, and the tail splits it. */
  lemma SplitTail(gs: seq<string>, ts: seq<string>, sep: char -> bool)
    requires |gs| == |ts| + 1 && ts != []
    requires IsSplit(Weave(gs, ts), sep, gs, ts)
    ensures var w := Weave(gs[1..], ts[1..]);
      && IsSplit(w, sep, gs[1..], ts[1..])
      && (w == [] || sep(w[0]))
  {
    var w := Weave(gs[1..], ts[1..]);
    forall k | 0 < k < |ts[1..]| ensures |gs[1..][k]| > 0 {
      assert gs[1..][k] == gs[k + 1];
    }
    forall k | 0 <= k < |gs[1..]| ensures forall i :: 0 <= i < |gs[1..][k]| ==> sep(gs[1..][k][i]) {
      assert gs[1..][k] == gs[k + 1];
    }
    forall k | 0 <= k < |ts[1..]| ensures |ts[1..][k]| > 0 && forall i :: 0 <= i < |ts[1..][k]| ==> !sep(ts[1..][k][i]) {
      assert ts[1..][k] == ts[k + 1];
    }
    if |gs[1]| > 0 {
      assert w[0] == gs[1][0];
    } else {
      assert |ts| == 1;
    }
  }

  /** str.split() yields nothing exactly when the text is all whitespace. */
  lemma WordsEmptyIff(s: string)
    ensures Words(s) == [] <==> forall i :: 0 <= i < |s| ==> IsSpace(s[i])
  {
    RunFacts(s, IsSpace, true);
    if forall i :: 0 <= i < |s| ==> IsSpace(s[i]) {
      LeadingRunExact(s, IsSpace, true, |s|);
    }
  }

  function StripRight(s: string): (t: string)
    ensures |t| <= |s| && t == s[..|t|]
    ensures |t| > 0 ==> !IsSpace(t[|t| - 1])
    ensures forall i :: |t| <= i < |s| ==> IsSpace(s[i])
  {
    if s == [] || !IsSpace(s[|s| - 1]) then s else StripRight(s[..|s| - 1])
  }

  function StripLeft(s: string): (t: string)
    ensures |t| <= |s| && t == s[|s| - |t|..]
  {
    if s == [] || !IsSpace(s[0]) then s else StripLeft(s[1..])
  }

  /** str.strip() with no argument. */
  function Strip(s: string): string {
    StripLeft(StripRight(s))
  }

  /** s.strip().endswith(('.', '!', '?')). */
  predicate EndsWithTerminal(s: string) {
    var t := Strip(s);
    |t| > 0 && t[|t| - 1] in {'.', '!', '?'}
  }

  /** s.count(c) for a one-character c. */
  function CountChar(s: string, c: char): nat {
    if s == [] then 0 else CountChar(s[..|s| - 1], c) + (if s[|s| - 1] == c then 1 else 0)
  }

  /** The substring test `w in s`. */
  predicate Contains(s: string, w: string)
    decreases |s|
  {
    if |s| < |w| then false else s[..|w|] == w || Contains(s[1..], w)
  }

  /** `any(w in s for w in ws)`. */
  predicate ContainsAny(s: string, ws: seq<string>) {
    exists k :: 0 <= k < |ws| && Contains(s, ws[k])
  }

  /** A substring test succeeds exactly when the word sits at some offset. */
  lemma {:induction false} ContainsAt(s: string, w: string, i: nat)
    requires i + |w| <= |s| && s[i..i + |w|] == w
    ensures Contains(s, w)
    decreases i
  {
    if i > 0 {
      assert s[1..][i - 1..i - 1 + |w|] == w;
      ContainsAt(s[1..], w, i - 1);
    }
  }

  /** `w` sits in `s` at offset i. */
  predicate OccursAt(s: string, w: string, i: nat) {
    i + |w| <= |s| && s[i..i + |w|] == w
  }

  /** A word that sits at no offset of the text is not a substring of it. */
  lemma {:induction false} NotContains(s: string, w: string)
    requires forall i: nat :: !OccursAt(s, w, i)
    ensures !Contains(s, w)
    decreases |s|
  {
    if |s| >= |w| {
      assert !OccursAt(s, w, 0);
      forall i: nat ensures !OccursAt(s[1..], w, i) {
        assert !OccursAt(s, w, i + 1);
        if i + |w| <= |s| - 1 {
          assert s[1..][i..i + |w|] == s[i + 1..i + 1 + |w|];
        }
      }
      NotContains(s[1..], w);
    }
  }

  /** A text made of word characters only is one regular-expression match. */
  lemma SingleRun(s: string)
    requires |s| > 0 && forall i :: 0 <= i < |s| ==> IsWordChar(s[i])
    ensures RegexWords(s) == [s]
  {
    assert LeadingRun(s, IsNotWordChar, true) == 0;
    LeadingRunExact(s, IsNotWordChar, false, |s|);
    var n := LeadingRun(s, IsNotWordChar, false);
    assert s[0..n] == s;
    assert Tokens(s[n..], IsNotWordChar) == [];
  }
}
