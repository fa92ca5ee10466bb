/**
 * The two regular expressions `convertRuleToSkill` applies to a rule file:
 * `/^#\s+(.+)$/m`, which finds the first top-level heading, and `/Rules?$/i`,
 * which strips a trailing "Rule" or "Rules" from it. Each is written as the
 * backtracking search ECMAScript performs (section 22.2 of ECMA-262) and is
 * related to a declarative description of what it finds.
 */
module Heading {
  import opened Options
  import opened Text

  // ---------------------------------------------------------------------
  // Anchors and maximal runs
  // ---------------------------------------------------------------------

  /** `^` under the `m` flag: the start of the input or just after a line terminator. */
  predicate AtLineStart(s: string, p: nat) {
    p == 0 || (p <= |s| && IsLineTerminator(s[p - 1]))
  }

  /** `$` under the `m` flag: the end of the input or just before a line terminator. */
  predicate AtLineEnd(s: string, q: nat) {
    q == |s| || (q < |s| && IsLineTerminator(s[q]))
  }

  /** Length of the run of `\s` characters starting at `i` (how far `\s+` first reaches). */
  function WhitespaceRun(s: string, i: nat): (n: nat)
    requires i <= |s|
    ensures i + n <= |s|
    ensures forall j :: i <= j < i + n ==> IsWhitespace(s[j])
    ensures i + n < |s| ==> !IsWhitespace(s[i + n])
    decreases |s| - i
  {
    if i < |s| && IsWhitespace(s[i]) then 1 + WhitespaceRun(s, i + 1) else 0
  }

  /** Length of the run of `.` characters (non line terminators) starting at `i`. */
  function DotRun(s: string, i: nat): (n: nat)
    requires i <= |s|
    ensures i + n <= |s|
    ensures forall j :: i <= j < i + n ==> !IsLineTerminator(s[j])
    ensures AtLineEnd(s, i + n)
    decreases |s| - i
  {
    if i < |s| && !IsLineTerminator(s[i]) then 1 + DotRun(s, i + 1) else 0
  }

  // ---------------------------------------------------------------------
  // The heading expression /^#\s+(.+)$/m, declaratively
  // ---------------------------------------------------------------------

  /** The `k` characters from `i` on are all whitespace. */
  predicate WhitespaceSpan(s: string, i: nat, k: nat)
    requires i + k <= |s|
  {
    forall j :: i <= j < i + k ==> IsWhitespace(s[j])
  }

  /**
   * The expression matches at `p` with `\s+` consuming exactly `k` characters:
   * a `#` at a line start, `k >= 1` whitespace characters (line terminators
   * included), then at least one non-terminator, which `(.+)$` then extends to
   * the end of its line.
   */
  predicate HeadingAt(s: string, p: nat, k: nat) {
    && p < |s| && AtLineStart(s, p) && s[p] == '#'
    && 1 <= k && p + 1 + k < |s|
    && WhitespaceSpan(s, p + 1, k)
    && !IsLineTerminator(s[p + 1 + k])
  }

  /** The text group 1 captures for the match `HeadingAt(s, p, k)`. */
  function Capture(s: string, p: nat, k: nat): (c: string)
    requires HeadingAt(s, p, k)
    ensures |c| >= 1
    ensures forall j :: 0 <= j < |c| ==> !IsLineTerminator(c[j])
  {
    s[p + 1 + k .. p + 1 + k + DotRun(s, p + 1 + k)]
  }

  /**
   * The match the search reports when it starts looking at `from`: the
   * leftmost start position, and at that position the longest `\s+`.
   */
  ghost predicate ChosenMatch(s: string, from: nat, p: nat, k: nat) {
    && from <= p && HeadingAt(s, p, k)
    && (forall q: nat, k': nat :: from <= q < p ==> !HeadingAt(s, q, k'))
    && (forall k': nat :: k < k' ==> !HeadingAt(s, p, k'))
  }

  /** At most one match is the chosen one. */
  lemma ChosenMatchUnique(s: string, from: nat, p: nat, k: nat, p': nat, k': nat)
    requires ChosenMatch(s, from, p, k) && ChosenMatch(s, from, p', k')
    ensures p == p' && k == k'
  {
  }

  // ---------------------------------------------------------------------
  // The heading expression, as the backtracking matcher runs it
  // ---------------------------------------------------------------------

  /**
   * `(.+)$` at `i` once the greedy `.+` has taken `n` characters: if `$` does
   * not hold, give one character back and try again; fails when none is left.
   * Returns the length group 1 ends up with.
   */
  function DotsThenLineEnd(s: string, i: nat, n: nat): (r: Option<nat>)
    requires i + n <= |s|
    requires forall j :: i <= j < i + n ==> !IsLineTerminator(s[j])
    ensures r.Some? ==> 1 <= r.value <= n && GroupEndsLine(s, i, r.value)
    ensures r.Some? ==> forall n': nat :: r.value < n' <= n ==> !GroupEndsLine(s, i, n')
    ensures r.None? ==> forall n': nat :: 1 <= n' <= n ==> !GroupEndsLine(s, i, n')
    decreases n
  {
    if n == 0 then None
    else if GroupEndsLine(s, i, n) then Some(n)
    else DotsThenLineEnd(s, i, n - 1)
  }

  /** `$` holds right after a group of `n` characters starting at `i`. */
  predicate GroupEndsLine(s: string, i: nat, n: nat) {
    AtLineEnd(s, i + n)
  }

  /** Started on the maximal run, `(.+)$` succeeds exactly when the run is non-empty, and keeps all of it. */
  lemma DotsKeepWholeRun(s: string, i: nat)
    requires i <= |s|
    ensures DotsThenLineEnd(s, i, DotRun(s, i)) ==
              (if DotRun(s, i) == 0 then None else Some(DotRun(s, i)))
  {
  }

  /**
   * `\s+(.+)$` after the `#` at `p`, with `\s+` currently holding `k`
   * characters: try the rest, and on failure give one whitespace character
   * back. Returns the `\s+` length and the group length of the first success.
   */
  function WhitespaceThenText(s: string, p: nat, k: nat): (r: Option<(nat, nat)>)
    requires p < |s| && AtLineStart(s, p) && s[p] == '#'
    requires p + 1 + k <= |s|
    requires WhitespaceSpan(s, p + 1, k)
    ensures r.Some? ==> r.value.0 <= k && HeadingAt(s, p, r.value.0)
                        && r.value.1 == DotRun(s, p + 1 + r.value.0)
    ensures r.Some? ==> forall k': nat :: r.value.0 < k' <= k ==> !HeadingAt(s, p, k')
    ensures r.None? ==> forall k': nat :: k' <= k ==> !HeadingAt(s, p, k')
    decreases k
  {
    if k == 0 then None
    else
      var i := p + 1 + k;
      DotsKeepWholeRun(s, i);
      HeadingAtText(s, p, k);
      match DotsThenLineEnd(s, i, DotRun(s, i))
      case Some(n) => Some((k, n))
      case None =>
        WhitespaceSpanShrinks(s, p + 1, k);
        WhitespaceThenText(s, p, k - 1)
  }

  /** Once `#` and `k` whitespace characters are in place, the match needs only a non-empty group. */
  lemma HeadingAtText(s: string, p: nat, k: nat)
    requires p < |s| && AtLineStart(s, p) && s[p] == '#'
    requires 1 <= k && p + 1 + k <= |s| && WhitespaceSpan(s, p + 1, k)
    ensures HeadingAt(s, p, k) <==> DotRun(s, p + 1 + k) >= 1
  {
  }

  lemma WhitespaceSpanShrinks(s: string, i: nat, k: nat)
    requires 1 <= k && i + k <= |s| && WhitespaceSpan(s, i, k)
    ensures WhitespaceSpan(s, i, k - 1)
  {
  }

  /** One attempt of the whole expression at position `p`; returns the captured text. */
  function MatchAt(s: string, p: nat): (r: Option<string>)
    requires p <= |s|
    ensures r.Some? <==> exists k: nat :: HeadingAt(s, p, k)
    ensures r.Some? ==> exists k: nat :: ChosenMatch(s, p, p, k) && r.value == Capture(s, p, k)
  {
    if p < |s| && AtLineStart(s, p) && s[p] == '#' then
      var m := WhitespaceRun(s, p + 1);
      var attempt := WhitespaceThenText(s, p, m);
      AttemptIsChosen(s, p, m, attempt);
      match attempt
      case Some((k, _)) => Some(Capture(s, p, k))
      case None => None
    else
      None
  }

  /** What the backtracking attempt at a `#` finds is the longest-whitespace match there, if any. */
  lemma AttemptIsChosen(s: string, p: nat, m: nat, attempt: Option<(nat, nat)>)
    requires p < |s| && AtLineStart(s, p) && s[p] == '#'
    requires m == WhitespaceRun(s, p + 1) && attempt == WhitespaceThenText(s, p, m)
    ensures attempt.None? ==> forall k: nat :: !HeadingAt(s, p, k)
    ensures attempt.Some? ==> ChosenMatch(s, p, p, attempt.value.0)
  {
    NoLongerWhitespace(s, p, m);
  }

  /** `\s+` can never hold more than the whitespace run after the `#`. */
  lemma NoLongerWhitespace(s: string, p: nat, m: nat)
    requires p < |s| && m == WhitespaceRun(s, p + 1)
    ensures forall k: nat :: m < k ==> !HeadingAt(s, p, k)
  {
    forall k: nat | m < k
      ensures !HeadingAt(s, p, k)
    {
      if p + 1 + k < |s| {
        assert !IsWhitespace(s[p + 1 + m]);
      }
    }
  }

  /** The search `String.prototype.match` performs: try each start position from `p` on. */
  function FindHeading(s: string, p: nat): (r: Option<string>)
    requires p <= |s|
    ensures r.None? <==> forall q: nat, k: nat :: p <= q ==> !HeadingAt(s, q, k)
    ensures r.Some? ==> exists q: nat, k: nat :: ChosenMatch(s, p, q, k) && r.value == Capture(s, q, k)
    decreases |s| - p
  {
    if p == |s| then
      None
    else
      match MatchAt(s, p)
      case Some(c) => Some(c)
      case None =>
        var r := FindHeading(s, p + 1);
        ChosenMatchFromEarlier(s, p, r);
        r
  }

  /** A chosen match stays chosen when the search starts one position earlier, at a position that does not match. */
  lemma ChosenMatchFromEarlier(s: string, p: nat, r: Option<string>)
    requires forall k': nat :: !HeadingAt(s, p, k')
    requires r.Some? ==> exists q: nat, k: nat :: ChosenMatch(s, p + 1, q, k) && r.value == Capture(s, q, k)
    ensures r.Some? ==> exists q: nat, k: nat :: ChosenMatch(s, p, q, k) && r.value == Capture(s, q, k)
  {
    if r.Some? {
      var q: nat, k: nat :| ChosenMatch(s, p + 1, q, k) && r.value == Capture(s, q, k);
      assert ChosenMatch(s, p, q, k);
    }
  }

  /** Group 1 of `content.match(/^#\s+(.+)$/m)`, or `None` when it does not match. */
  function FirstHeading(content: string): (r: Option<string>)
    ensures r.Some? <==> exists p: nat, k: nat :: HeadingAt(content, p, k)
    ensures r.Some? ==> exists p: nat, k: nat :: ChosenMatch(content, 0, p, k) && r.value == Capture(content, p, k)
  {
    FindHeading(content, 0)
  }

  /** The heading search finds something exactly when some line holds a match. */
  lemma FirstHeadingExists(s: string)
    ensures FirstHeading(s).Some? <==> exists p: nat, k: nat :: HeadingAt(s, p, k)
  {
  }

  /** The heading search reports the capture of the chosen match, whichever way it is described. */
  lemma FirstHeadingIsChosen(s: string, p: nat, k: nat)
    requires ChosenMatch(s, 0, p, k)
    ensures FirstHeading(s) == Some(Capture(s, p, k))
  {
    var r := FirstHeading(s);
    assert r.Some?;
    var q, k' :| ChosenMatch(s, 0, q, k') && r.value == Capture(s, q, k');
    ChosenMatchUnique(s, 0, p, k, q, k');
  }

  // ---------------------------------------------------------------------
  // The suffix expression /Rules?$/i
  // ---------------------------------------------------------------------

  /**
   * `c` matches the lower-case pattern letter `lower` under the `i` flag
   * without `u` (Canonicalize, section 22.2.2.7.3): the letter itself or its
   * ASCII upper-case form. Non-ASCII characters whose upper case is ASCII,
   * such as U+017F, are excluded by that canonicalisation.
   */
  predicate SameLetter(c: char, lower: char) {
    c == lower || ('a' <= lower <= 'z' && c as int == lower as int - 32)
  }

  /** `word` occurs at `i` in `s`, ignoring case. */
  predicate WordAt(s: string, i: nat, word: string) {
    i + |word| <= |s| && forall j :: 0 <= j < |word| ==> SameLetter(s[i + j], word[j])
  }

  /** `s` ends with `word`, ignoring case. */
  predicate EndsWithWord(s: string, word: string) {
    |word| <= |s| && WordAt(s, |s| - |word|, word)
  }

  /**
   * One attempt of `/Rules?$/i` at `p`: "rule", then a greedy optional "s",
   * then `$` without the `m` flag (the end of the input); when `$` fails after
   * the "s", the "s" is given back. Returns where the match ends.
   */
  function RulesSuffixAt(s: string, p: nat): (r: Option<nat>)
    ensures r.Some? <==> WordAt(s, p, "rule") && (p + 4 == |s| || (p + 5 == |s| && SameLetter(s[p + 4], 's')))
    ensures r.Some? ==> r.value == |s|
  {
    if WordAt(s, p, "rule") then
      var withS := p + 4 < |s| && SameLetter(s[p + 4], 's');
      if withS && p + 5 == |s| then Some(p + 5)
      else if p + 4 == |s| then Some(p + 4)
      else None
    else
      None
  }

  /** The search `String.prototype.replace` performs for a non-global expression: the first match at or after `p`. */
  function FindRulesSuffix(s: string, p: nat): (r: Option<(nat, nat)>)
    requires p <= |s|
    ensures r.Some? ==> p <= r.value.0 && RulesSuffixAt(s, r.value.0) == Some(r.value.1)
    ensures r.Some? ==> forall q: nat :: p <= q < r.value.0 ==> RulesSuffixAt(s, q).None?
    ensures r.None? ==> forall q: nat :: p <= q ==> RulesSuffixAt(s, q).None?
    decreases |s| - p
  {
    match RulesSuffixAt(s, p)
    case Some(e) => Some((p, e))
    case None =>
      if p == |s| then None else FindRulesSuffix(s, p + 1)
  }

  /**
   * `text.replace(/Rules?$/i, '')`: removes one trailing "Rules" or "Rule",
   * in any letter case, and nothing else. Whitespace after it blocks the removal.
   */
  function StripRuleSuffix(text: string): (r: string)
    ensures EndsWithWord(text, "rules") ==> r == text[..|text| - 5]
    ensures EndsWithWord(text, "rule") ==> r == text[..|text| - 4]
    ensures !EndsWithWord(text, "rules") && !EndsWithWord(text, "rule") ==> r == text
  {
    RulesSuffixPosition(text);
    match FindRulesSuffix(text, 0)
    case Some((i, j)) => text[..i] + text[j..]
    case None => text
  }

  /** Where `/Rules?$/i` can match: only four or five characters before the end. */
  lemma RulesSuffixPosition(text: string)
    ensures forall q: nat :: q + 5 < |text| ==> RulesSuffixAt(text, q).None?
    ensures EndsWithWord(text, "rules") ==>
              RulesSuffixAt(text, |text| - 5) == Some(|text|) && RulesSuffixAt(text, |text| - 4).None?
    ensures EndsWithWord(text, "rule") ==>
              RulesSuffixAt(text, |text| - 4) == Some(|text|)
              && (|text| >= 5 ==> RulesSuffixAt(text, |text| - 5).None?)
    ensures !EndsWithWord(text, "rules") && !EndsWithWord(text, "rule") ==>
              forall q: nat :: RulesSuffixAt(text, q).None?
  {
    var n := |text|;
    if EndsWithWord(text, "rules") {
      assert WordAt(text, n - 5, "rule") by {
        forall j | 0 <= j < 4 ensures SameLetter(text[n - 5 + j], "rule"[j]) {
          assert "rules"[j] == "rule"[j];
        }
      }
      assert SameLetter(text[n - 5 + 4], "rules"[4]);
    }
    if EndsWithWord(text, "rule") && n >= 5 {
      assert SameLetter(text[n - 4 + 3], "rule"[3]);
    }
    forall q: nat | RulesSuffixAt(text, q).Some?
      ensures q + 5 >= n
      ensures q + 5 == n ==> EndsWithWord(text, "rules")
      ensures q + 4 == n ==> EndsWithWord(text, "rule")
    {
      if q + 5 == n {
        assert WordAt(text, q, "rules") by {
          forall j | 0 <= j < 5 ensures SameLetter(text[q + j], "rules"[j]) {
            if j < 4 { assert "rules"[j] == "rule"[j]; }
          }
        }
      }
    }
  }
}
