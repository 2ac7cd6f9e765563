/** Locating a report section. Every section pattern of the parser has the shape

      \*\*HEADER[^:]*:\*\*(.+?)(?:TERMINATOR|TERMINATOR|...|$)

    searched with `re.search(..., re.DOTALL | re.IGNORECASE)` (some variants
    also accept the full-width colon). The model spells out what that search
    does: the leftmost position where the header occurs (ignoring case), the
    first colon after it, which must be followed by `**`, then the shortest
    non-empty group that ends where a terminator occurs or at `$` (the end of
    the text, or just before a final newline). */
module Sections {
  import opened Text

  /** `header` includes its leading `**`; `colons` is the class that ends the
      header's free text; `terminators` are the alternatives before `$`. */
  datatype SectionPattern = SectionPattern(header: string, colons: set<char>, terminators: seq<string>)

  /** First index at or after `i` holding a colon character, or `|s|`. */
  function FirstColon(s: string, i: nat, colons: set<char>): (r: nat)
    requires i <= |s|
    ensures i <= r <= |s| && (r < |s| ==> s[r] in colons)
    ensures forall j :: i <= j < r ==> s[j] !in colons
    decreases |s| - i
  {
    if i == |s| || s[i] in colons then i else FirstColon(s, i + 1, colons)
  }

  /** Where the captured group begins when the pattern matches at `i`: the
      header, any run of non-colon characters, a colon, `**`, and at least one
      character after it (the group `.+?` is never empty). */
  function ContentStart(s: string, i: nat, p: SectionPattern): (r: Option<nat>)
    ensures r.Some? ==> i + |p.header| + 3 <= r.value < |s|
    ensures r.Some? ==> PrefixAtIgnoreCase(s, i, p.header)
    ensures r.Some? ==> s[r.value - 3] in p.colons && s[r.value - 2..r.value] == "**"
  {
    if !PrefixAtIgnoreCase(s, i, p.header) then None
    else
      var j := FirstColon(s, i + |p.header|, p.colons);
      if j + 3 < |s| && s[j + 1] == '*' && s[j + 2] == '*' then Some(j + 3) else None
  }

  /** `$` without MULTILINE: the end of the text or just before a final newline. */
  predicate AtEnd(s: string, q: nat) {
    q == |s| || (q + 1 == |s| && s[q] == '\n')
  }

  predicate TerminatorAt(s: string, q: nat, terms: seq<string>) {
    exists k :: 0 <= k < |terms| && PrefixAtIgnoreCase(s, q, terms[k])
  }

  predicate StopsAt(s: string, q: nat, terms: seq<string>) {
    AtEnd(s, q) || TerminatorAt(s, q, terms)
  }

  /** The lazy group stops at the earliest position from `q` on where a
      terminator or `$` matches. */
  function LazyEnd(s: string, q: nat, terms: seq<string>): (e: nat)
    requires q <= |s|
    ensures q <= e <= |s| && StopsAt(s, e, terms)
    ensures forall k :: q <= k < e ==> !StopsAt(s, k, terms)
    decreases |s| - q
  {
    if StopsAt(s, q, terms) then q else LazyEnd(s, q + 1, terms)
  }

  /** A match: where it starts, where its group starts and where it ends. */
  datatype Span = Span(start: nat, content: nat, end: nat)

  /** `re.search` from position `i` on. */
  function SearchFrom(s: string, p: SectionPattern, i: nat): (r: Option<Span>)
    requires i <= |s|
    ensures r.Some? ==> i <= r.value.start && ContentStart(s, r.value.start, p) == Some(r.value.content)
    ensures r.Some? ==> r.value.end == LazyEnd(s, r.value.content + 1, p.terminators)
    ensures r.Some? ==> forall k :: i <= k < r.value.start ==> ContentStart(s, k, p).None?
    ensures r.None? ==> forall k :: i <= k <= |s| ==> ContentStart(s, k, p).None?
    decreases |s| - i
  {
    match ContentStart(s, i, p)
    case Some(c) => Some(Span(i, c, LazyEnd(s, c + 1, p.terminators)))
    case None => if i == |s| then None else SearchFrom(s, p, i + 1)
  }

  /** `m.group(1)` of `re.search(pattern, s, re.DOTALL | re.IGNORECASE)`, or
      None when there is no match. */
  function Search(s: string, p: SectionPattern): (r: Option<string>)
    ensures r.Some? ==> r.value != []
  {
    match SearchFrom(s, p, 0)
    case None => None
    case Some(sp) => Some(s[sp.content..sp.end])
  }

  /** The group found by `Search` follows the leftmost header match, and it
      stops at the first terminator or `$` after its first character: no
      terminator starts strictly inside it, and one starts (or the text ends)
      right after it. */
  lemma SearchFindsLeftmostShortest(s: string, p: SectionPattern)
    requires Search(s, p).Some?
    ensures exists i: nat, c: nat, e: nat ::
      i <= |s| && ContentStart(s, i, p) == Some(c) && c < e <= |s| && Search(s, p) == Some(s[c..e])
      && (forall k :: 0 <= k < i ==> ContentStart(s, k, p).None?)
      && (forall q :: c < q < e ==> !StopsAt(s, q, p.terminators))
      && StopsAt(s, e, p.terminators)
  {
    var sp := SearchFrom(s, p, 0).value;
    assert ContentStart(s, sp.start, p) == Some(sp.content);
  }

  /** No header match anywhere means no section. */
  lemma SearchNoneWhenHeaderAbsent(s: string, p: SectionPattern)
    requires !exists i: nat :: i <= |s| && PrefixAtIgnoreCase(s, i, p.header)
    ensures Search(s, p) == None
  {
  }

  /** The patterns of one section are tried in order and the first that
      matches wins. */
  function FirstSection(s: string, pats: seq<SectionPattern>): (r: Option<string>)
    ensures r.None? <==> forall k :: 0 <= k < |pats| ==> Search(s, pats[k]).None?
    ensures r.Some? ==> exists k :: 0 <= k < |pats| && Search(s, pats[k]) == r
                          && forall j :: 0 <= j < k ==> Search(s, pats[j]).None?
  {
    if pats == [] then None
    else
      match Search(s, pats[0])
      case Some(g) => Some(g)
      case None =>
        var r := FirstSection(s, pats[1..]);
        assert forall k :: 1 <= k < |pats| ==> pats[1..][k - 1] == pats[k];
        if r.Some? then
          var k :| 0 <= k < |pats[1..]| && Search(s, pats[1..][k]) == r
                    && forall j :: 0 <= j < k ==> Search(s, pats[1..][j]).None?;
          assert Search(s, pats[k + 1]) == r;
          r
        else r
  }

  /** The loop of the source over a section's pattern list: `re.search` with
      each pattern in turn, `break` at the first match. */
  method FirstMatching(s: string, pats: seq<SectionPattern>) returns (section: Option<string>)
    ensures section == FirstSection(s, pats)
    ensures section.None? <==> forall k :: 0 <= k < |pats| ==> Search(s, pats[k]).None?
    ensures section.Some? ==> section.value != []
  {
    section := None;
    var k := 0;
    while k < |pats|
      invariant 0 <= k <= |pats|
      invariant section == None
      invariant forall j :: 0 <= j < k ==> Search(s, pats[j]).None?
    {
      var m := Search(s, pats[k]);
      if m.Some? {
        section := m;
        break;
      }
      k := k + 1;
    }
  }
}
