/** The substitution steps of `clean_section` and the sentinels of
    `split_ai_output_into_sections`. Each `re.sub(pattern, rep, text)` whose
    pattern can never match the empty string scans the text from the left:
    where the pattern matches, the match is replaced and the scan resumes at
    its end; elsewhere one character is copied. A pattern is given to `Sub` as
    the function that says where its (leftmost, as Python's backtracking
    decides) match starting at a position ends. */
module Cleaning {
  import opened Text
  import opened Sections

  const NoStocks := "No stock recommendations available."
  const NoOptions := "No options recommendations available."
  const NoVerdict := "No final verdict available."

  /** The three fields of the returned dict. */
  datatype Report = Report(stockPicks: string, optionsPicks: string, finalVerdict: string)

  /** `cleaned or sentinel`. */
  function OrElse(cleaned: string, sentinel: string): (r: string)
    requires sentinel != []
    ensures r != []
    ensures r == cleaned || (cleaned == [] && r == sentinel)
  {
    if cleaned != [] then cleaned else sentinel
  }

  // ---------------------------------------------------------------------------
  // re.sub for patterns that never match the empty string
  // ---------------------------------------------------------------------------

  /** Every match `m` reports starts where it is asked and ends later, inside
      the text. */
  predicate Advances(s: string, m: (string, nat) -> Option<nat>) {
    forall j: nat :: j < |s| && m(s, j).Some? ==> j < m(s, j).value <= |s|
  }

  /** `re.sub(pattern, rep, s[i..])` as the scan from position `i` of `s`
      (anchors and look-arounds still see all of `s`). */
  function Sub(s: string, i: nat, m: (string, nat) -> Option<nat>, rep: string): string
    requires i <= |s| && Advances(s, m)
    decreases |s| - i
  {
    if i == |s| then []
    else
      match m(s, i)
      case Some(e) => rep + Sub(s, e, m, rep)
      case None => [s[i]] + Sub(s, i + 1, m, rep)
  }

  /** Where no match starts, the text is copied unchanged. */
  lemma {:induction false} SubSkips(s: string, i: nat, n: nat, m: (string, nat) -> Option<nat>, rep: string)
    requires i <= n <= |s| && Advances(s, m)
    requires forall j: nat :: i <= j < n ==> m(s, j).None?
    ensures Sub(s, i, m, rep) == s[i..n] + Sub(s, n, m, rep)
    decreases n - i
  {
    if i < n {
      assert m(s, i).None?;
      assert Sub(s, i, m, rep) == [s[i]] + Sub(s, i + 1, m, rep);
      SubSkips(s, i + 1, n, m, rep);
      assert s[i..n] == [s[i]] + s[i + 1..n];
    }
  }

  /** Where a match starts, it is replaced and the scan resumes at its end. */
  lemma SubAtMatch(s: string, i: nat, m: (string, nat) -> Option<nat>, rep: string)
    requires i < |s| && Advances(s, m) && m(s, i).Some?
    ensures Sub(s, i, m, rep) == rep + Sub(s, m(s, i).value, m, rep)
  {
  }

  /** A pattern that matches nowhere leaves the text as it is. */
  lemma SubNoMatch(s: string, m: (string, nat) -> Option<nat>, rep: string)
    requires Advances(s, m)
    requires forall j: nat :: j < |s| ==> m(s, j).None?
    ensures Sub(s, 0, m, rep) == s
  {
    SubSkips(s, 0, |s|, m, rep);
  }

  /** Every match is longer than the replacement. */
  predicate Shrinking(s: string, m: (string, nat) -> Option<nat>, rep: string) {
    forall j: nat :: j < |s| && m(s, j).Some? ==> m(s, j).value - j > |rep|
  }

  /** A substitution whose matches are all longer than the replacement never
      lengthens the text, and keeps its length only when it changes nothing. */
  lemma {:induction false} SubShrinks(s: string, i: nat, m: (string, nat) -> Option<nat>, rep: string)
    requires i <= |s| && Advances(s, m) && Shrinking(s, m, rep)
    ensures |Sub(s, i, m, rep)| <= |s| - i
    ensures |Sub(s, i, m, rep)| == |s| - i ==> Sub(s, i, m, rep) == s[i..]
    decreases |s| - i
  {
    if i < |s| {
      match m(s, i)
      case Some(e) =>
        SubShrinks(s, e, m, rep);
      case None =>
        SubShrinks(s, i + 1, m, rep);
        assert s[i..] == [s[i]] + s[i + 1..];
    }
  }

  /** The end of the maximal run of `p`-characters starting at `i` (a greedy
      `+` or `*` over a character class). */
  function RunEnd(s: string, i: nat, p: char -> bool): (e: nat)
    requires i <= |s|
    ensures i <= e <= |s| && (e < |s| ==> !p(s[e]))
    ensures forall k :: i <= k < e ==> p(s[k])
    decreases |s| - i
  {
    if i < |s| && p(s[i]) then RunEnd(s, i + 1, p) else i
  }

  // ---------------------------------------------------------------------------
  // Separator lines: re.sub(r'^[-–—]{3,}$', '', s, flags=re.MULTILINE)
  // ---------------------------------------------------------------------------

  predicate IsDash(c: char) {
    c == '-' || c == '\U{2013}' || c == '\U{2014}'
  }

  /** A whole line of three or more hyphens, en dashes or em dashes. */
  predicate IsSeparator(line: string) {
    |line| >= 3 && forall i :: 0 <= i < |line| ==> IsDash(line[i])
  }

  function Unseparate(line: string): (r: string)
    ensures !IsSeparator(r)
    ensures '\n' !in line ==> '\n' !in r
  {
    if IsSeparator(line) then "" else line
  }

  /** With MULTILINE, `^` and `$` sit at the ends of each line and the greedy
      class run cannot cross a newline, so the substitution empties exactly
      the separator lines. */
  function DropSeparators(s: string): string {
    MapLines(Unseparate, s)
  }

  /** The text keeps its lines: each separator line becomes empty, every other
      line is unchanged, and no separator line is left. */
  lemma DropSeparatorsLines(s: string)
    ensures |Lines(DropSeparators(s))| == |Lines(s)|
    ensures forall k :: 0 <= k < |Lines(s)| ==>
      Lines(DropSeparators(s))[k] == (if IsSeparator(Lines(s)[k]) then "" else Lines(s)[k])
    ensures forall k :: 0 <= k < |Lines(DropSeparators(s))| ==> !IsSeparator(Lines(DropSeparators(s))[k])
  {
    LinesOfMapLines(Unseparate, s);
  }

  // ---------------------------------------------------------------------------
  // re.sub(r'\*\*AGENT COMPARISON:\*\*.+?(?=\*\*|$)', '', s, DOTALL | IGNORECASE)
  // ---------------------------------------------------------------------------

  const AgentHeader := "**AGENT COMPARISON:**"

  /** The header (any case), at least one character, then up to the first
      `**` or the end of the text. */
  function AgentAt(s: string, j: nat): (r: Option<nat>)
    ensures r.Some? ==> j < r.value <= |s|
  {
    if j + |AgentHeader| < |s| && PrefixAtIgnoreCase(s, j, AgentHeader)
    then Some(LazyEnd(s, j + |AgentHeader| + 1, ["**"]))
    else None
  }

  function DropAgentComparison(s: string): string {
    Sub(s, 0, AgentAt, "")
  }

  /** Text before the first place the header occurs is kept as it is; a text
      without the header is unchanged. */
  lemma DropAgentComparisonKeeps(s: string, n: nat)
    requires n <= |s|
    requires forall j :: 0 <= j < n ==> !PrefixAtIgnoreCase(s, j, AgentHeader)
    ensures DropAgentComparison(s) == s[..n] + Sub(s, n, AgentAt, "")
  {
    SubSkips(s, 0, n, AgentAt, "");
  }

  /** The first comparison block, from its header through at least one
      character up to the next `**` (or the end of the text), is cut out and
      the text before it kept. */
  lemma DropAgentComparisonFirst(s: string, n: nat)
    requires n + |AgentHeader| < |s| && PrefixAtIgnoreCase(s, n, AgentHeader)
    requires forall j :: 0 <= j < n ==> !PrefixAtIgnoreCase(s, j, AgentHeader)
    ensures var e := LazyEnd(s, n + |AgentHeader| + 1, ["**"]);
      && (e == |s| || OccursAt(s, e, "**") || (e + 1 == |s| && s[e] == '\n'))
      && DropAgentComparison(s) == s[..n] + Sub(s, e, AgentAt, "")
  {
    var e := LazyEnd(s, n + |AgentHeader| + 1, ["**"]);
    StopsAtStars(s, e);
    SubSkips(s, 0, n, AgentAt, "");
    assert AgentAt(s, n) == Some(e);
    SubAtMatch(s, n, AgentAt, "");
    assert "" + Sub(s, e, AgentAt, "") == Sub(s, e, AgentAt, "");
  }

  /** `(?=\*\*|$)` ignoring case is `**` itself or `$`. */
  lemma StopsAtStars(s: string, e: nat)
    requires StopsAt(s, e, ["**"])
    ensures e == |s| || OccursAt(s, e, "**") || (e + 1 == |s| && s[e] == '\n')
  {
    if TerminatorAt(s, e, ["**"]) {
      var k :| 0 <= k < 1 && PrefixAtIgnoreCase(s, e, ["**"][k]);
      assert EqualsIgnoreCase(s[e..e + 2], "**");
      assert Fold(s[e]) == '*' && Fold(s[e + 1]) == '*';
      assert s[e..e + 2] == "**";
    }
  }

  // ---------------------------------------------------------------------------
  // re.sub(r'\*\*FINAL UNIFIED RECOMMENDATIONS:\*\*', '', s, flags=re.IGNORECASE)
  // ---------------------------------------------------------------------------

  const UnifiedTitle := "**FINAL UNIFIED RECOMMENDATIONS:**"

  function UnifiedAt(s: string, j: nat): (r: Option<nat>)
    ensures r.Some? ==> j < r.value <= |s|
  {
    if PrefixAtIgnoreCase(s, j, UnifiedTitle) then Some(j + |UnifiedTitle|) else None
  }

  function DropUnifiedTitle(s: string): string {
    Sub(s, 0, UnifiedAt, "")
  }

  /** Text before the first occurrence of the title is kept as it is; a text
      without the title is unchanged. */
  lemma DropUnifiedTitleKeeps(s: string, n: nat)
    requires n <= |s|
    requires forall j :: 0 <= j < n ==> !PrefixAtIgnoreCase(s, j, UnifiedTitle)
    ensures DropUnifiedTitle(s) == s[..n] + Sub(s, n, UnifiedAt, "")
  {
    SubSkips(s, 0, n, UnifiedAt, "");
  }

  // ---------------------------------------------------------------------------
  // Hashtags (current version only)
  // ---------------------------------------------------------------------------

  /** `#` followed by a greedy non-empty run of `p`-characters. */
  function MarkAt(s: string, j: nat, p: char -> bool): (r: Option<nat>)
    ensures r.Some? ==> j < r.value <= |s|
  {
    if j + 1 < |s| && s[j] == '#' && p(s[j + 1]) then Some(RunEnd(s, j + 1, p)) else None
  }

  /** `#\w+`. */
  function WordTagAt(s: string, j: nat): (r: Option<nat>)
    ensures r.Some? ==> j < r.value <= |s|
  {
    MarkAt(s, j, IsWordChar)
  }

  /** `#\s+`. */
  function SpaceTagAt(s: string, j: nat): (r: Option<nat>)
    ensures r.Some? ==> j < r.value <= |s|
  {
    MarkAt(s, j, IsSpace)
  }

  /** `\s+#\s+`: greedy whitespace, `#`, greedy whitespace. Backtracking the
      first run cannot help, since `#` is not whitespace. */
  function SpacedHashAt(s: string, j: nat): (r: Option<nat>)
    ensures r.Some? ==> j < r.value <= |s|
  {
    if j < |s| && IsSpace(s[j]) then
      var k := RunEnd(s, j, IsSpace);
      if k + 1 < |s| && s[k] == '#' && IsSpace(s[k + 1]) then Some(RunEnd(s, k + 1, IsSpace)) else None
    else None
  }

  /** `^\s*#\s*` with MULTILINE: at the start of the text or of a line of the
      ORIGINAL text; the leading run may cross newlines. */
  function LineHashAt(s: string, j: nat): (r: Option<nat>)
    ensures r.Some? ==> j < r.value <= |s|
  {
    if j <= |s| && (j == 0 || (0 < j <= |s| && s[j - 1] == '\n')) then
      var k := RunEnd(s, j, IsSpace);
      if k < |s| && s[k] == '#' then Some(RunEnd(s, k + 1, IsSpace)) else None
    else None
  }

  /** The four hashtag substitutions, in the source's order. */
  function DropWordTags(s: string): string { Sub(s, 0, WordTagAt, "") }
  function DropSpaceTags(s: string): string { Sub(s, 0, SpaceTagAt, "") }
  function DropSpacedHashes(s: string): string { Sub(s, 0, SpacedHashAt, " ") }
  function DropLineHashes(s: string): string { Sub(s, 0, LineHashAt, "") }

  function DropHashtags(s: string): string {
    DropLineHashes(DropSpacedHashes(DropSpaceTags(DropWordTags(s))))
  }

  /** No `#` is directly followed by a `p`-character. */
  predicate NoMarkBefore(s: string, p: char -> bool) {
    forall k :: 0 <= k < |s| - 1 && s[k] == '#' ==> !p(s[k + 1])
  }

  /** Removing `#`+run from position `i` on leaves text that does not start
      with a run character (when the input from `i` did not), and in which no
      `#` is followed by one: a kept `#` was not followed by one, and every
      removed match ends in front of a non-run character. */
  lemma {:induction false} DropMarksFacts(s: string, i: nat, m: (string, nat) -> Option<nat>, p: char -> bool)
    requires i <= |s| && Advances(s, m) && !p('#')
    requires forall j: nat :: m(s, j) == MarkAt(s, j, p)
    ensures var r := Sub(s, i, m, "");
      && ((i < |s| && !p(s[i])) ==> (r == [] || !p(r[0])))
      && NoMarkBefore(r, p)
    decreases |s| - i
  {
    if i < |s| {
      var r := Sub(s, i, m, "");
      match MarkAt(s, i, p)
      case Some(e) =>
        DropMarksFacts(s, e, m, p);
        assert r == Sub(s, e, m, "");
      case None =>
        DropMarksFacts(s, i + 1, m, p);
        var rest := Sub(s, i + 1, m, "");
        assert r == [s[i]] + rest;
        forall k | 0 <= k < |r| - 1 && r[k] == '#'
          ensures !p(r[k + 1])
        {
          if k > 0 {
            assert r[k] == rest[k - 1] && r[k + 1] == rest[k];
          } else {
            assert i + 1 < |s| && !p(s[i + 1]);
          }
        }
    }
  }

  /** After `#\w+` and `#\s+` are removed, no `#` is directly followed by a
      word character or by whitespace, so the third step `\s+#\s+` finds
      nothing to replace. */
  lemma HashtagSteps(s: string)
    ensures NoMarkBefore(DropWordTags(s), IsWordChar)
    ensures NoMarkBefore(DropSpaceTags(DropWordTags(s)), IsSpace)
    ensures DropSpacedHashes(DropSpaceTags(DropWordTags(s))) == DropSpaceTags(DropWordTags(s))
  {
    DropMarksFacts(s, 0, WordTagAt, IsWordChar);
    var t := DropWordTags(s);
    DropMarksFacts(t, 0, SpaceTagAt, IsSpace);
    var u := DropSpaceTags(t);
    forall j: nat | j < |u| ensures SpacedHashAt(u, j).None? {
      if j < |u| && IsSpace(u[j]) {
        var k := RunEnd(u, j, IsSpace);
        if k + 1 < |u| && u[k] == '#' {
          assert !IsSpace(u[k + 1]);
        }
      }
    }
    SubNoMatch(u, SpacedHashAt, " ");
  }

  /** Each hashtag step never lengthens the text, so together they keep the
      length only when none of them changes anything. */
  lemma DropHashtagsShrinks(s: string)
    ensures |DropHashtags(s)| <= |s|
    ensures |DropHashtags(s)| == |s| ==>
      DropWordTags(s) == s && DropSpaceTags(s) == s && DropHashtags(s) == s
  {
    var a := DropWordTags(s);
    var b := DropSpaceTags(a);
    var c := DropSpacedHashes(b);
    SubShrinks(s, 0, WordTagAt, "");
    SubShrinks(a, 0, SpaceTagAt, "");
    forall j: nat | j < |b| && SpacedHashAt(b, j).Some? ensures SpacedHashAt(b, j).value - j > 1 {
      assert RunEnd(b, j, IsSpace) > j;
    }
    SubShrinks(b, 0, SpacedHashAt, " ");
    SubShrinks(c, 0, LineHashAt, "");
  }

  /** The hashtag steps repeated until they change nothing. */
  function DropAllHashtags(s: string): (r: string)
    ensures DropHashtags(r) == r
    ensures NoMarkBefore(r, IsWordChar) && NoMarkBefore(r, IsSpace)
    decreases |s|
  {
    DropHashtagsShrinks(s);
    var t := DropHashtags(s);
    if t == s then
      HashtagSteps(s);
      s
    else DropAllHashtags(t)
  }

  /** Removing all hashtags is idempotent. */
  lemma DropAllHashtagsIdempotent(s: string)
    ensures DropAllHashtags(DropAllHashtags(s)) == DropAllHashtags(s)
  {
  }

  /** Text without `#` has no hashtag to remove. */
  lemma NoHashKept(s: string)
    requires '#' !in s
    ensures DropWordTags(s) == s && DropSpaceTags(s) == s && DropSpacedHashes(s) == s && DropLineHashes(s) == s
    ensures DropHashtags(s) == s
  {
    forall j: nat | j < |s| ensures WordTagAt(s, j).None? && SpaceTagAt(s, j).None? {
      assert s[j] in s;
    }
    SubNoMatch(s, WordTagAt, "");
    SubNoMatch(s, SpaceTagAt, "");
    forall j: nat | j < |s| ensures SpacedHashAt(s, j).None? && LineHashAt(s, j).None? {
      var k := RunEnd(s, j, IsSpace);
      assert k < |s| ==> s[k] in s;
    }
    SubNoMatch(s, SpacedHashAt, " ");
    SubNoMatch(s, LineHashAt, "");
  }

  /** The hashtag steps in one pass are not idempotent: they turn `a ## foo`
      into `a #foo`, which still holds the hashtag `#foo`, and a second pass
      removes it. */
  lemma HashtagsNotIdempotent(s: string)
    requires s == "a ## foo"
    ensures DropHashtags(s) == "a #foo" && !NoMarkBefore(DropHashtags(s), IsWordChar)
    ensures DropHashtags(DropHashtags(s)) == "a "
  {
    DoubleHashLeavesTag(s);
    HashtagSteps(s);
    var t := DropSpaceTags(s);
    assert t == "a #foo";
    forall j: nat | j < |t| ensures LineHashAt(t, j).None? {
      assert t[0] == 'a' && t[1] == ' ' && t[2] == '#';
      assert j > 0 ==> t[j - 1] != '\n';
    }
    SubNoMatch(t, LineHashAt, "");
    assert !IsWordChar('#') && t[2] == '#' && IsWordChar(t[3]);
    HashOnceMore(t);
  }

  /** The second pass on `a #foo`: `#\w+` removes `#foo`. */
  lemma HashOnceMore(t: string)
    requires t == "a #foo"
    ensures DropHashtags(t) == "a "
  {
    assert t[2] == '#' && IsWordChar(t[3]) && IsWordChar(t[4]) && IsWordChar(t[5]);
    assert RunEnd(t, 3, IsWordChar) == 6;
    assert WordTagAt(t, 0).None? && WordTagAt(t, 1).None?;
    SubSkips(t, 0, 2, WordTagAt, "");
    SubAtMatch(t, 2, WordTagAt, "");
    assert Sub(t, 6, WordTagAt, "") == [];
    assert t[0..2] == "a ";
    var u := DropWordTags(t);
    assert u == "a ";
    assert '#' !in u;
    NoHashKept(u);
  }

  /** A single line with no `*` that does not start with a dash is not
      touched by the separator, comparison-block and title substitutions. */
  lemma PlainLineKept(s: string)
    requires s != [] && !IsDash(s[0]) && '\n' !in s && '*' !in s
    ensures DropSeparators(s) == s && DropAgentComparison(s) == s && DropUnifiedTitle(s) == s
  {
    forall j | 0 <= j < |s| ensures s[j] != '\n' && s[j] != '*' {
      assert s[j] in s;
    }
    assert LineEnd(s, 0) == |s|;
    assert Lines(s) == [s];
    assert !IsSeparator(s);
    assert seq(1, k requires 0 <= k < 1 => Unseparate([s][k])) == [s];
    forall j: nat | j < |s| ensures AgentAt(s, j).None? && UnifiedAt(s, j).None? {
      assert Fold(s[j]) != '*';
      assert j + |AgentHeader| <= |s| ==> s[j..j + |AgentHeader|][0] == s[j];
      assert j + |UnifiedTitle| <= |s| ==> s[j..j + |UnifiedTitle|][0] == s[j];
    }
    SubNoMatch(s, AgentAt, "");
    SubNoMatch(s, UnifiedAt, "");
  }

  /** Repeating the steps removes the hashtag one pass leaves behind. */
  lemma DropAllHashtagsExample(s: string)
    requires s == "a ## foo"
    ensures DropAllHashtags(s) == "a "
  {
    HashtagsNotIdempotent(s);
    var t, u := "a #foo", "a ";
    assert |t| != |s| && |u| != |t|;
    assert DropAllHashtags(s) == DropAllHashtags(t);
    assert DropAllHashtags(t) == DropAllHashtags(u);
    assert '#' !in u;
    NoHashKept(u);
  }

  /** A `##` heading marker is not removed: `#\w+` cannot match at either
      `#`, and `#\s+` then removes only the second `#` and the space, leaving
      a `#foo` that looks like the hashtag the first step was meant to
      remove. */
  lemma DoubleHashLeavesTag(s: string)
    requires s == "a ## foo"
    ensures DropWordTags(s) == s
    ensures DropSpaceTags(s) == "a #foo"
  {
    forall j: nat | j < |s| ensures WordTagAt(s, j).None? {
      assert s[0] == 'a' && s[1] == ' ' && s[2] == '#' && s[3] == '#' && s[4] == ' ';
    }
    SubNoMatch(s, WordTagAt, "");
    assert SpaceTagAt(s, 0).None? && SpaceTagAt(s, 1).None? && SpaceTagAt(s, 2).None?;
    SubSkips(s, 0, 3, SpaceTagAt, "");
    assert RunEnd(s, 4, IsSpace) == 5;
    assert SpaceTagAt(s, 3) == Some(5);
    SubSkips(s, 5, 8, SpaceTagAt, "");
    assert s[..3] == "a #" && s[5..8] == "foo";
  }
}
