/** The older parser (the root generate_html.py): the same extraction
    pipeline with other Chinese headers, no HOLD vocabulary, a whole-section
    PASS test, a simpler option grammar, and a `clean_section` whose only
    meta-sentence removals are the 粵語 trailer and the 符合語言要求 lines.
    As in the current version, `matcher(k, section)` stands for the matches
    of the k-th pick pattern, in scan order. */
module Legacy {
  import opened Text
  import opened Sections
  import opened Picks
  import opened Cleaning
  import Html

  // ---------------------------------------------------------------------------
  // Section patterns
  // ---------------------------------------------------------------------------

  /** `\*\*STOCK PICKS[^:]*:\*\*(.+?)(?:\*\*OPTIONS PICKS|\*\*期權推薦|$)` and
      `\*\*股票推薦[^:]*:\*\*(.+?)(?:\*\*OPTIONS|\*\*期權|$)`. */
  const StockSections: seq<SectionPattern> := [
    SectionPattern("**STOCK PICKS", {':'}, ["**OPTIONS PICKS", "**期權推薦"]),
    SectionPattern("**股票推薦", {':'}, ["**OPTIONS", "**期權"])
  ]

  const OptionsSections: seq<SectionPattern> := [
    SectionPattern("**OPTIONS PICKS", {':'}, ["**FINAL VERDICT", "**最終裁決"]),
    SectionPattern("**期權推薦", {':'}, ["**FINAL", "**最終"])
  ]

  const VerdictSections: seq<SectionPattern> := [
    SectionPattern("**FINAL VERDICT", {':'}, []),
    SectionPattern("**最終裁決", {':'}, [])
  ]

  /** `re.search(r'PASS|無推薦|沒有推薦', section, re.IGNORECASE)`: the section
      says there is nothing to recommend, anywhere in it. */
  predicate SaysPass(section: string) {
    ContainsIgnoreCase(section, "PASS") || ContainsIgnoreCase(section, "無推薦")
    || ContainsIgnoreCase(section, "沒有推薦")
  }

  // ---------------------------------------------------------------------------
  // parse_stock_picks
  // ---------------------------------------------------------------------------

  const StockPatternCount := 3

  /** The alternatives of the action group: no HOLD here. */
  const StockTokens: seq<string> := ["BUY", "SELL", "PASS", "買入", "賣出"]

  /** The canonical action of each alternative, position by position. */
  const StockCanonical: seq<string> := ["BUY", "SELL", "PASS", "BUY", "SELL"]

  const StockReserved: seq<string> := ["BUY", "SELL", "CALL", "PUT", "ETF", "PASS", "TOP"]

  predicate StockTokenOk(m: RawStock) {
    exists k :: 0 <= k < |StockTokens| && EqualsIgnoreCase(m.action, StockTokens[k])
  }

  /** 買入 and 賣出 become BUY and SELL. */
  function StockAction(action: string): string {
    if action == "買入" then "BUY" else if action == "賣出" then "SELL" else action
  }

  /** Whatever spelling of an alternative the match used, the translation
      after `upper()` gives that alternative's canonical form. */
  lemma StockCanonicalOf(t: string, k: nat)
    requires k < |StockTokens| && EqualsIgnoreCase(t, StockTokens[k])
    ensures StockAction(Upper(t)) == StockCanonical[k]
  {
    var w := StockTokens[k];
    assert PlainToken(w);
    UpperOfMatchedToken(t, w);
  }

  /** The body of the inner loop for one match, up to the duplicate check:
      only the ticker is filtered. */
  function AcceptStock(m: RawStock): Option<Pick> {
    if m.ticker in StockReserved then None
    else Some(StockPick(m.ticker, StockAction(Upper(m.action)), m.topNum, "", "Medium"))
  }

  /** A match is kept exactly when its ticker is not reserved; its action is
      BUY or SELL, or PASS exactly when the match spelt PASS, namely the
      canonical form of the alternative the match spelt. */
  lemma AcceptStockFacts(m: RawStock)
    requires StockTokenOk(m)
    ensures AcceptStock(m).Some? <==> m.ticker !in StockReserved
    ensures AcceptStock(m).Some? ==>
      var p := AcceptStock(m).value;
      && p.StockPick? && p.ticker == m.ticker && p.topNum == m.topNum
      && p.action in ["BUY", "SELL", "PASS"]
      && (p.action == "PASS" <==> EqualsIgnoreCase(m.action, "PASS"))
    ensures AcceptStock(m).Some? ==>
      forall k :: 0 <= k < |StockTokens| && EqualsIgnoreCase(m.action, StockTokens[k]) ==>
        AcceptStock(m).value.action == StockCanonical[k]
  {
    var k :| 0 <= k < |StockTokens| && EqualsIgnoreCase(m.action, StockTokens[k]);
    var w := StockTokens[k];
    assert PlainToken(w);
    UpperOfMatchedToken(m.action, w);
    forall j | 0 <= j < |StockTokens| && EqualsIgnoreCase(m.action, StockTokens[j])
      ensures StockAction(Upper(m.action)) == StockCanonical[j]
    {
      StockCanonicalOf(m.action, j);
    }
    if EqualsIgnoreCase(m.action, "PASS") {
      assert PlainToken("PASS");
      UpperOfMatchedToken(m.action, "PASS");
    }
  }

  function StockSection(text: string): Option<string> {
    if text == [] then None else FirstSection(text, StockSections)
  }

  function StockCandidates(section: string, matcher: (nat, string) -> seq<RawStock>): seq<Pick> {
    Candidates(RawsUpTo(matcher, section, StockPatternCount), AcceptStock)
  }

  /** What `parse_stock_picks` returns. */
  function StockPicksOf(text: string, matcher: (nat, string) -> seq<RawStock>): seq<Pick> {
    match StockSection(text)
    case None => []
    case Some(section) => if SaysPass(section) then [] else Ranked(StockCandidates(section, matcher))
  }

  /** One match: skip a reserved ticker, or translate the action and append
      the pick unless its ticker is already there. */
  method AddStock(stocks: seq<Pick>, m: RawStock) returns (stocks': seq<Pick>)
    ensures stocks' == match AcceptStock(m)
                       case None => stocks
                       case Some(p) => if HasKey(stocks, Key(p)) then stocks else stocks + [p]
  {
    stocks' := stocks;
    var ticker := m.ticker;
    var action := Upper(m.action);
    if ticker in StockReserved {
      return;
    }
    if action == "買入" {
      action := "BUY";
    } else if action == "賣出" {
      action := "SELL";
    }
    if !HasKey(stocks', (ticker, "")) {
      stocks' := stocks' + [StockPick(ticker, action, m.topNum, "", "Medium")];
    }
  }

  /** The inner loop: every match of one pattern, in scan order. */
  method AddStocks(stocks: seq<Pick>, matches: seq<RawStock>, ghost done: seq<RawStock>) returns (stocks': seq<Pick>)
    requires stocks == Dedup(Candidates(done, AcceptStock))
    ensures stocks' == Dedup(Candidates(done + matches, AcceptStock))
  {
    stocks' := stocks;
    var j := 0;
    ghost var seen := done;
    while j < |matches|
      invariant 0 <= j <= |matches|
      invariant seen == done + matches[..j]
      invariant stocks' == Dedup(Candidates(seen, AcceptStock))
    {
      ghost var before := stocks';
      stocks' := AddStock(stocks', matches[j]);
      DedupStep(seen, matches[j], AcceptStock, before, stocks');
      SeenStep(done, matches, j);
      seen := seen + [matches[j]];
      j := j + 1;
    }
    assert matches[..|matches|] == matches;
  }

  /** The outer loop over the patterns. */
  method CollectStocks(section: string, matcher: (nat, string) -> seq<RawStock>) returns (stocks: seq<Pick>)
    ensures stocks == Dedup(StockCandidates(section, matcher))
  {
    stocks := [];
    var k := 0;
    while k < StockPatternCount
      invariant 0 <= k <= StockPatternCount
      invariant stocks == Dedup(Candidates(RawsUpTo(matcher, section, k), AcceptStock))
    {
      stocks := AddStocks(stocks, matcher(k, section), RawsUpTo(matcher, section, k));
      RawsUpToStep(matcher, section, k);
      k := k + 1;
    }
  }

  /** `parse_stock_picks`: locate the section, give up on a PASS anywhere in
      it, otherwise run every pattern, keep the first pick per ticker, sort by
      rank and keep three. */
  method ParseStockPicks(text: string, matcher: (nat, string) -> seq<RawStock>) returns (picks: seq<Pick>)
    ensures picks == StockPicksOf(text, matcher)
  {
    if text == [] {
      return [];
    }
    var found := FirstMatching(text, StockSections);
    if found.None? {
      return [];
    }
    if SaysPass(found.value) {
      return [];
    }
    var stocks := CollectStocks(found.value, matcher);
    stocks := SortByRank(stocks);
    picks := if |stocks| <= 3 then stocks else stocks[..3];
  }

  /** Without text, without a stock section, or when the section says PASS,
      無推薦 or 沒有推薦 anywhere (even beside real picks), the result is
      empty. Otherwise it holds one stock pick per distinct ticker among the
      candidates, up to three, in ascending rank, none with a reserved
      ticker, each the first pick its ticker got and built from one of the
      matches; a ticker that was cut ranks no better than the ones kept, and after any it ties with. */
  lemma StockPicksFacts(text: string, matcher: (nat, string) -> seq<RawStock>)
    ensures StockSection(text).None? ==> StockPicksOf(text, matcher) == []
    ensures StockSection(text).Some? && SaysPass(StockSection(text).value) ==> StockPicksOf(text, matcher) == []
    ensures StockSection(text).Some? && !SaysPass(StockSection(text).value) ==>
      var section := StockSection(text).value;
      var raws := RawsUpTo(matcher, section, StockPatternCount);
      var c := StockCandidates(section, matcher);
      var r := StockPicksOf(text, matcher);
      && |r| == (if |Dedup(c)| <= 3 then |Dedup(c)| else 3) && SortedByRank(r) && KeysDistinct(r)
      && (forall p :: p in r ==>
            && p.StockPick? && p.ticker !in StockReserved
            && (exists m :: m in raws && AcceptStock(m) == Some(p))
            && FirstWithKey(c, Key(p)) == Some(p))
      && (forall p, q :: p in c && FirstWithKey(c, Key(p)) == Some(p) && p !in r && q in r ==> q.topNum <= p.topNum)
      && (forall p, q :: p in c && FirstWithKey(c, Key(p)) == Some(p) && p !in r && q in r && p.topNum == q.topNum ==>
            FirstIndex(c, Key(q)) < FirstIndex(c, Key(p)))
  {
    if StockSection(text).Some? && !SaysPass(StockSection(text).value) {
      var section := StockSection(text).value;
      var raws := RawsUpTo(matcher, section, StockPatternCount);
      var c := StockCandidates(section, matcher);
      RankedFacts(c);
      CandidatesFrom(raws, AcceptStock);
      forall p | p in Ranked(c)
        ensures p.StockPick? && p.ticker !in StockReserved
      {
        var m :| m in raws && AcceptStock(m) == Some(p);
      }
    }
  }

  /** Every returned action is BUY or SELL. There is no filter on the action
      itself: a match whose action is PASS puts PASS into the section, and
      then the whole section is given up. So this needs what a regex match
      guarantees: each action spells one of the tokens and is part of the
      section. */
  lemma StockActions(text: string, matcher: (nat, string) -> seq<RawStock>, section: string)
    requires StockSection(text) == Some(section)
    requires forall m :: m in RawsUpTo(matcher, section, StockPatternCount) ==> StockTokenOk(m) && Contains(section, m.action)
    ensures forall p :: p in StockPicksOf(text, matcher) ==> p.StockPick? && p.action in ["BUY", "SELL"]
  {
    if !SaysPass(section) {
      var raws := RawsUpTo(matcher, section, StockPatternCount);
      var c := StockCandidates(section, matcher);
      assert StockPicksOf(text, matcher) == Ranked(c);
      RankedIn(c);
      CandidatesFrom(raws, AcceptStock);
      forall p | p in Ranked(c)
        ensures p.StockPick? && p.action in ["BUY", "SELL"]
      {
        assert p in c;
        var m :| m in raws && AcceptStock(m) == Some(p);
        AcceptStockFacts(m);
        if EqualsIgnoreCase(m.action, "PASS") {
          ContainsSpelling(section, m.action, "PASS");
        }
      }
    }
  }

  // ---------------------------------------------------------------------------
  // parse_options_picks
  // ---------------------------------------------------------------------------

  const OptionPatternCount := 2

  const OptionTokens: seq<string> := ["CALL", "PUT", "PASS", "認購", "認沽"]

  /** The canonical type of each alternative, position by position. */
  const OptionCanonical: seq<string> := ["CALL", "PUT", "PASS", "CALL", "PUT"]

  /** BUY and SELL are not among them. */
  const OptionReserved: seq<string> := ["CALL", "PUT", "ETF", "PASS", "TOP"]

  predicate OptionTokenOk(m: RawOption) {
    exists k :: 0 <= k < |OptionTokens| && EqualsIgnoreCase(m.kind, OptionTokens[k])
  }

  /** 認購 and 認沽 become CALL and PUT. */
  function OptionKind(kind: string): string {
    if kind == "認購" then "CALL" else if kind == "認沽" then "PUT" else kind
  }

  /** `match.group(4)` when the pattern has it and it captured something,
      else `?`: never empty, and digits whenever the group captured digits. */
  function Strike(rest: seq<Option<string>>): (r: string)
    ensures r != []
    ensures |rest| >= 1 && Captured(rest[0]) ==> r == rest[0].value
    ensures r != "?" ==> |rest| >= 1 && rest[0] == Some(r)
    ensures |rest| >= 1 && rest[0].Some? && AllDigits(rest[0].value) ==> r == "?" || AllDigits(r)
  {
    if |rest| >= 1 && Captured(rest[0]) then rest[0].value else "?"
  }

  /** `match.group(5).strip()` when the pattern has it and it captured
      something, else the empty string. */
  function Expiry(rest: seq<Option<string>>): (r: string)
    ensures IsStripped(r)
    ensures !(|rest| >= 2 && Captured(rest[1])) ==> r == []
    ensures |rest| >= 2 && Captured(rest[1]) ==> r == Strip(rest[1].value)
    ensures r != [] ==> |r| <= |rest[1].value|
  {
    if |rest| >= 2 && Captured(rest[1]) then Strip(rest[1].value) else ""
  }

  /** Whatever spelling of an alternative the match used, the translation
      after `upper()` gives that alternative's canonical form. */
  lemma OptionCanonicalOf(t: string, k: nat)
    requires k < |OptionTokens| && EqualsIgnoreCase(t, OptionTokens[k])
    ensures OptionKind(Upper(t)) == OptionCanonical[k]
  {
    var w := OptionTokens[k];
    assert PlainToken(w);
    UpperOfMatchedToken(t, w);
  }

  function AcceptOption(m: RawOption): Option<Pick> {
    if m.ticker in OptionReserved then None
    else Some(OptionPick(m.ticker, OptionKind(Upper(m.kind)), Strike(m.rest), m.topNum, Expiry(m.rest), "Medium"))
  }

  /** A match is kept exactly when its ticker is not reserved; its type is
      CALL or PUT, or PASS exactly when the match spelt PASS; its strike is
      the captured fourth group or `?`, its expiry the stripped fifth group or
      empty. */
  lemma AcceptOptionFacts(m: RawOption)
    requires OptionTokenOk(m)
    ensures AcceptOption(m).Some? <==> m.ticker !in OptionReserved
    ensures AcceptOption(m).Some? ==>
      var p := AcceptOption(m).value;
      && p.OptionPick? && p.ticker == m.ticker && p.topNum == m.topNum
      && p.kind in ["CALL", "PUT", "PASS"]
      && (p.kind == "PASS" <==> EqualsIgnoreCase(m.kind, "PASS"))
      && (p.strike == "?" || (|m.rest| >= 1 && Captured(m.rest[0]) && p.strike == m.rest[0].value))
      && (p.expiry == [] || (|m.rest| >= 2 && Captured(m.rest[1]) && p.expiry == Strip(m.rest[1].value)))
    ensures AcceptOption(m).Some? ==>
      var p := AcceptOption(m).value;
      && (forall k :: 0 <= k < |OptionTokens| && EqualsIgnoreCase(m.kind, OptionTokens[k]) ==>
            p.kind == OptionCanonical[k])
      && (|m.rest| >= 1 && Captured(m.rest[0]) ==> p.strike == m.rest[0].value)
      && (|m.rest| >= 2 && Captured(m.rest[1]) ==> p.expiry == Strip(m.rest[1].value))
  {
    var k :| 0 <= k < |OptionTokens| && EqualsIgnoreCase(m.kind, OptionTokens[k]);
    var w := OptionTokens[k];
    assert PlainToken(w);
    UpperOfMatchedToken(m.kind, w);
    forall j | 0 <= j < |OptionTokens| && EqualsIgnoreCase(m.kind, OptionTokens[j])
      ensures OptionKind(Upper(m.kind)) == OptionCanonical[j]
    {
      OptionCanonicalOf(m.kind, j);
    }
    if EqualsIgnoreCase(m.kind, "PASS") {
      assert PlainToken("PASS");
      UpperOfMatchedToken(m.kind, "PASS");
    }
  }

  function OptionsSection(text: string): Option<string> {
    if text == [] then None else FirstSection(text, OptionsSections)
  }

  function OptionCandidates(section: string, matcher: (nat, string) -> seq<RawOption>): seq<Pick> {
    Candidates(RawsUpTo(matcher, section, OptionPatternCount), AcceptOption)
  }

  /** What `parse_options_picks` returns. */
  function OptionPicksOf(text: string, matcher: (nat, string) -> seq<RawOption>): seq<Pick> {
    match OptionsSection(text)
    case None => []
    case Some(section) => if SaysPass(section) then [] else Ranked(OptionCandidates(section, matcher))
  }

  /** One match: work out strike and expiry, skip a reserved ticker, or
      translate the type and append the pick unless its (ticker, type) pair
      is already there. */
  method AddOption(options: seq<Pick>, m: RawOption) returns (options': seq<Pick>)
    ensures options' == match AcceptOption(m)
                        case None => options
                        case Some(p) => if HasKey(options, Key(p)) then options else options + [p]
  {
    options' := options;
    var ticker := m.ticker;
    var optionType := Upper(m.kind);
    var strike := if |m.rest| >= 1 && Captured(m.rest[0]) then m.rest[0].value else "?";
    var expiry := if |m.rest| >= 2 && Captured(m.rest[1]) then Strip(m.rest[1].value) else "";
    if ticker in OptionReserved {
      return;
    }
    if optionType == "認購" {
      optionType := "CALL";
    } else if optionType == "認沽" {
      optionType := "PUT";
    }
    if !HasKey(options', (ticker, optionType)) {
      options' := options' + [OptionPick(ticker, optionType, strike, m.topNum, expiry, "Medium")];
    }
  }

  /** The inner loop: every match of one pattern, in scan order. */
  method AddOptions(options: seq<Pick>, matches: seq<RawOption>, ghost done: seq<RawOption>) returns (options': seq<Pick>)
    requires options == Dedup(Candidates(done, AcceptOption))
    ensures options' == Dedup(Candidates(done + matches, AcceptOption))
  {
    options' := options;
    var j := 0;
    ghost var seen := done;
    while j < |matches|
      invariant 0 <= j <= |matches|
      invariant seen == done + matches[..j]
      invariant options' == Dedup(Candidates(seen, AcceptOption))
    {
      ghost var before := options';
      options' := AddOption(options', matches[j]);
      DedupStep(seen, matches[j], AcceptOption, before, options');
      SeenStep(done, matches, j);
      seen := seen + [matches[j]];
      j := j + 1;
    }
    assert matches[..|matches|] == matches;
  }

  /** The outer loop over the patterns. */
  method CollectOptions(section: string, matcher: (nat, string) -> seq<RawOption>) returns (options: seq<Pick>)
    ensures options == Dedup(OptionCandidates(section, matcher))
  {
    options := [];
    var k := 0;
    while k < OptionPatternCount
      invariant 0 <= k <= OptionPatternCount
      invariant options == Dedup(Candidates(RawsUpTo(matcher, section, k), AcceptOption))
    {
      options := AddOptions(options, matcher(k, section), RawsUpTo(matcher, section, k));
      RawsUpToStep(matcher, section, k);
      k := k + 1;
    }
  }

  /** `parse_options_picks`. */
  method ParseOptionsPicks(text: string, matcher: (nat, string) -> seq<RawOption>) returns (picks: seq<Pick>)
    ensures picks == OptionPicksOf(text, matcher)
  {
    if text == [] {
      return [];
    }
    var found := FirstMatching(text, OptionsSections);
    if found.None? {
      return [];
    }
    if SaysPass(found.value) {
      return [];
    }
    var options := CollectOptions(found.value, matcher);
    options := SortByRank(options);
    picks := if |options| <= 3 then options else options[..3];
  }

  /** Without text, without an options section, or when the section says
      PASS, 無推薦 or 沒有推薦 anywhere, the result is empty. Otherwise it holds
      one option pick per distinct (ticker, type) pair, up to three, in
      ascending rank, none with a reserved ticker, each the first pick of its
      pair and built from one of the matches; a pair that was cut ranks no
      better than the ones kept, and after any it ties with. */
  lemma OptionPicksFacts(text: string, matcher: (nat, string) -> seq<RawOption>)
    ensures OptionsSection(text).None? ==> OptionPicksOf(text, matcher) == []
    ensures OptionsSection(text).Some? && SaysPass(OptionsSection(text).value) ==> OptionPicksOf(text, matcher) == []
    ensures OptionsSection(text).Some? && !SaysPass(OptionsSection(text).value) ==>
      var section := OptionsSection(text).value;
      var raws := RawsUpTo(matcher, section, OptionPatternCount);
      var c := OptionCandidates(section, matcher);
      var r := OptionPicksOf(text, matcher);
      && |r| == (if |Dedup(c)| <= 3 then |Dedup(c)| else 3) && SortedByRank(r) && KeysDistinct(r)
      && (forall p :: p in r ==>
            && p.OptionPick? && p.ticker !in OptionReserved && IsStripped(p.expiry)
            && (exists m :: m in raws && AcceptOption(m) == Some(p))
            && FirstWithKey(c, Key(p)) == Some(p))
      && (forall p, q :: p in c && FirstWithKey(c, Key(p)) == Some(p) && p !in r && q in r ==> q.topNum <= p.topNum)
      && (forall p, q :: p in c && FirstWithKey(c, Key(p)) == Some(p) && p !in r && q in r && p.topNum == q.topNum ==>
            FirstIndex(c, Key(q)) < FirstIndex(c, Key(p)))
  {
    if OptionsSection(text).Some? && !SaysPass(OptionsSection(text).value) {
      var section := OptionsSection(text).value;
      var raws := RawsUpTo(matcher, section, OptionPatternCount);
      var c := OptionCandidates(section, matcher);
      RankedFacts(c);
      CandidatesFrom(raws, AcceptOption);
      forall p | p in Ranked(c)
        ensures p.OptionPick? && p.ticker !in OptionReserved && IsStripped(p.expiry)
      {
        var m :| m in raws && AcceptOption(m) == Some(p);
      }
    }
  }

  /** Every returned type is CALL or PUT, and every strike is `?` or a
      non-empty digit string. This needs what a regex match guarantees: the
      type spells one of the tokens and is part of the section, and the fourth
      group, when it captured, is `\d+`. */
  lemma OptionTypesAndStrikes(text: string, matcher: (nat, string) -> seq<RawOption>, section: string)
    requires OptionsSection(text) == Some(section)
    requires forall m :: m in RawsUpTo(matcher, section, OptionPatternCount) ==>
      && OptionTokenOk(m) && Contains(section, m.kind)
      && (|m.rest| >= 1 && Captured(m.rest[0]) ==> AllDigits(m.rest[0].value))
    ensures forall p :: p in OptionPicksOf(text, matcher) ==>
      && p.OptionPick? && p.kind in ["CALL", "PUT"]
      && (p.strike == "?" || (p.strike != [] && AllDigits(p.strike)))
  {
    if !SaysPass(section) {
      var raws := RawsUpTo(matcher, section, OptionPatternCount);
      var c := OptionCandidates(section, matcher);
      assert OptionPicksOf(text, matcher) == Ranked(c);
      RankedIn(c);
      CandidatesFrom(raws, AcceptOption);
      forall p | p in Ranked(c)
        ensures p.OptionPick? && p.kind in ["CALL", "PUT"]
        ensures p.OptionPick? && (p.strike == "?" || (p.strike != [] && AllDigits(p.strike)))
      {
        assert p in c;
        var m :| m in raws && AcceptOption(m) == Some(p);
        AcceptOptionFacts(m);
        if EqualsIgnoreCase(m.kind, "PASS") {
          ContainsSpelling(section, m.kind, "PASS");
        }
      }
    }
  }

  // ---------------------------------------------------------------------------
  // clean_section: the meta-sentence trailers
  // ---------------------------------------------------------------------------

  const Above := "以上"
  const Cantonese := "粵語"
  const LanguageNote := "符合語言要求"

  /** `[（(]`: a full-width or an ASCII opening parenthesis. */
  predicate IsOpenParen(c: char) {
    c == '（' || c == '('
  }

  /** 粵語 occurs in `line` at or after `i`. */
  predicate CantoneseFrom(line: string, i: nat) {
    exists j: nat :: i <= j <= |line| && OccursAt(line, j, Cantonese)
  }

  /** `[（(]?以上.*?粵語` matches at `p` of a line: an optional parenthesis,
      以上, then 粵語 somewhere after it on the same line. The rest of the
      pattern, `.*?[）)]?\.?$`, always reaches the end of the line. */
  predicate TrailerAt(line: string, p: nat) {
    p < |line|
    && ((IsOpenParen(line[p]) && OccursAt(line, p + 1, Above) && CantoneseFrom(line, p + 3))
        || (OccursAt(line, p, Above) && CantoneseFrom(line, p + 2)))
  }

  /** The leftmost position at or after `p` where the trailer pattern
      matches. */
  function FirstTrailer(line: string, p: nat): (r: Option<nat>)
    requires p <= |line|
    ensures r.Some? ==> p <= r.value < |line| && TrailerAt(line, r.value)
    ensures r.Some? ==> forall q: nat :: p <= q < r.value ==> !TrailerAt(line, q)
    ensures r.None? ==> forall q: nat :: p <= q ==> !TrailerAt(line, q)
    decreases |line| - p
  {
    if p == |line| then None
    else if TrailerAt(line, p) then Some(p)
    else FirstTrailer(line, p + 1)
  }

  /** One line of `re.sub(r'[（(]?以上.*?粵語.*?[）)]?\.?$', '', s,
      flags=re.MULTILINE)`: `.` stops at a newline and the match runs to the
      end of its line, so the substitution cuts each line at its leftmost
      match and never joins lines. */
  function CutTrailer(line: string): (r: string)
    ensures |r| <= |line| && r == line[..|r|]
  {
    match FirstTrailer(line, 0)
    case None => line
    case Some(p) => line[..p]
  }

  /** One line of `re.sub(r'[（(]?.*?符合語言要求.*?[）)]?\.?$', '', s,
      flags=re.MULTILINE)`: the match starts at the beginning of any line that
      holds the phrase and runs to its end. */
  function DropNote(line: string): (r: string)
    ensures !Contains(r, LanguageNote)
    ensures r == line || r == []
  {
    if Contains(line, LanguageNote) then [] else line
  }

  /** A match in a prefix of a line is a match in the line. */
  lemma TrailerInPrefix(line: string, n: nat, q: nat)
    requires n <= |line| && TrailerAt(line[..n], q)
    ensures TrailerAt(line, q)
  {
    var pre := line[..n];
    if IsOpenParen(pre[q]) && OccursAt(pre, q + 1, Above) && CantoneseFrom(pre, q + 3) {
      var j: nat :| q + 3 <= j <= |pre| && OccursAt(pre, j, Cantonese);
      OccursInPrefix(line, n, j, Cantonese);
      OccursInPrefix(line, n, q + 1, Above);
      assert pre[q] == line[q];
    } else {
      var j: nat :| q + 2 <= j <= |pre| && OccursAt(pre, j, Cantonese);
      OccursInPrefix(line, n, j, Cantonese);
      OccursInPrefix(line, n, q, Above);
    }
  }

  /** A line with no trailer is kept, and so is a line without 粵語; a line
      that is cut loses exactly the part from its leftmost trailer on; what is
      left holds no trailer, so cutting again changes nothing. */
  lemma CutTrailerFacts(line: string)
    ensures (CutTrailer(line) == line) <==> (forall q: nat :: !TrailerAt(line, q))
    ensures !Contains(line, Cantonese) ==> CutTrailer(line) == line
    ensures CutTrailer(line) != line ==>
      TrailerAt(line, |CutTrailer(line)|) && forall q: nat :: q < |CutTrailer(line)| ==> !TrailerAt(line, q)
    ensures forall q: nat :: !TrailerAt(CutTrailer(line), q)
    ensures CutTrailer(CutTrailer(line)) == CutTrailer(line)
  {
    var r := CutTrailer(line);
    forall q: nat | TrailerAt(r, q) ensures false {
      TrailerInPrefix(line, |r|, q);
    }
    var none := FirstTrailer(r, 0);
    assert none.None?;
  }

  /** `\n` is not in a prefix of a line that has none. */
  lemma CutTrailerLine(line: string)
    requires '\n' !in line
    ensures '\n' !in CutTrailer(line)
  {
    var r := CutTrailer(line);
    forall i | 0 <= i < |r| ensures r[i] != '\n' {
      assert r[i] == line[i];
    }
  }

  /** Both trailer substitutions. */
  function DropTrailers(s: string): string {
    MapLines(DropNote, MapLines(CutTrailer, s))
  }

  /** The text keeps its lines; each becomes its cut, noted-free version, so
      no line holds the 以上…粵語 trailer or the phrase 符合語言要求. */
  lemma DropTrailersLines(s: string)
    ensures |Lines(DropTrailers(s))| == |Lines(s)|
    ensures forall k :: 0 <= k < |Lines(s)| ==>
      Lines(DropTrailers(s))[k] == DropNote(CutTrailer(Lines(s)[k]))
    ensures forall k, q: nat :: 0 <= k < |Lines(DropTrailers(s))| ==>
      !Contains(Lines(DropTrailers(s))[k], LanguageNote) && !TrailerAt(Lines(DropTrailers(s))[k], q)
  {
    forall line | '\n' !in line ensures '\n' !in CutTrailer(line) {
      CutTrailerLine(line);
    }
    LinesOfMapLines(CutTrailer, s);
    LinesOfMapLines(DropNote, MapLines(CutTrailer, s));
    forall k | 0 <= k < |Lines(s)| ensures forall q: nat :: !TrailerAt(DropNote(CutTrailer(Lines(s)[k])), q) {
      CutTrailerFacts(Lines(s)[k]);
    }
  }

  // ---------------------------------------------------------------------------
  // split_ai_output_into_sections and clean_section
  // ---------------------------------------------------------------------------

  /** `clean_section`: separator lines, strip, the comparison block, the
      unified title, the two trailer substitutions, strip. */
  function Cleaned(t: string): (r: string)
    ensures IsStripped(r)
  {
    var t := DropSeparators(t);
    var t := Strip(t);
    var t := DropAgentComparison(t);
    var t := DropUnifiedTitle(t);
    var t := DropTrailers(t);
    Strip(t)
  }

  method CleanSection(sectionText: string) returns (cleaned: string)
    ensures cleaned == Cleaned(sectionText)
    ensures IsStripped(cleaned)
  {
    var t := sectionText;
    t := DropSeparators(t);
    t := Strip(t);
    t := DropAgentComparison(t);
    t := DropUnifiedTitle(t);
    t := MapLines(CutTrailer, t);
    t := MapLines(DropNote, t);
    cleaned := Strip(t);
  }

  /** A cleaned section never holds the phrase 符合語言要求: every line that
      held it was emptied, the phrase cannot span a newline, and the final
      strip only removes characters. */
  lemma CleanedHasNoNote(t: string)
    ensures !Contains(Cleaned(t), LanguageNote)
  {
    var u := DropTrailers(DropUnifiedTitle(DropAgentComparison(Strip(DropSeparators(t)))));
    DropTrailersLines(DropUnifiedTitle(DropAgentComparison(Strip(DropSeparators(t)))));
    assert LanguageNote[0] == '符';
    assert '\n' !in LanguageNote;
    UnlinesAvoids(Lines(u), LanguageNote);
    UnlinesLines(u);
    StripAvoids(u, LanguageNote);
  }

  /** Nothing to clean gives nothing. */
  lemma CleanedEmpty()
    ensures Cleaned([]) == []
  {
    MapLinesEmpty(Unseparate);
    assert Strip([]) == [];
    assert DropAgentComparison([]) == [];
    assert DropUnifiedTitle([]) == [];
    assert CutTrailer([]) == [];
    MapLinesEmpty(CutTrailer);
    assert DropNote([]) == [];
    MapLinesEmpty(DropNote);
  }

  /** The stripped group of the first section pattern that matches, or "". */
  function SectionText(text: string, pats: seq<SectionPattern>): string {
    match FirstSection(text, pats)
    case None => ""
    case Some(g) => Strip(g)
  }

  function SplitOf(text: string): Report {
    if text == [] then Report(NoStocks, NoOptions, NoVerdict)
    else Report(OrElse(Cleaned(SectionText(text, StockSections)), NoStocks),
                OrElse(Cleaned(SectionText(text, OptionsSections)), NoOptions),
                OrElse(Cleaned(SectionText(text, VerdictSections)), NoVerdict))
  }

  /** `split_ai_output_into_sections`. */
  method SplitSections(text: string) returns (report: Report)
    ensures report == SplitOf(text)
  {
    if text == [] {
      return Report(NoStocks, NoOptions, NoVerdict);
    }
    var stockSection := "";
    var found := FirstMatching(text, StockSections);
    if found.Some? {
      stockSection := Strip(found.value);
    }
    var optionsSection := "";
    found := FirstMatching(text, OptionsSections);
    if found.Some? {
      optionsSection := Strip(found.value);
    }
    var verdictSection := "";
    found := FirstMatching(text, VerdictSections);
    if found.Some? {
      verdictSection := Strip(found.value);
    }
    var stocks := CleanSection(stockSection);
    var options := CleanSection(optionsSection);
    var verdict := CleanSection(verdictSection);
    report := Report(OrElse(stocks, NoStocks), OrElse(options, NoOptions), OrElse(verdict, NoVerdict));
  }

  lemma SentinelsStripped()
    ensures IsStripped(NoStocks) && IsStripped(NoOptions) && IsStripped(NoVerdict)
  {
    assert NoStocks[0] == 'N' && NoStocks[|NoStocks| - 1] == '.';
    assert NoOptions[0] == 'N' && NoOptions[|NoOptions| - 1] == '.';
    assert NoVerdict[0] == 'N' && NoVerdict[|NoVerdict| - 1] == '.';
  }

  /** Empty text gives the three sentinels. Otherwise no field is empty and
      none starts or ends with whitespace; a field is its cleaned section
      unless cleaning leaves nothing, and then its sentinel; a section that is
      not there gives its sentinel; and no field holds 符合語言要求. */
  lemma SplitFacts(text: string)
    ensures text == [] ==> SplitOf(text) == Report(NoStocks, NoOptions, NoVerdict)
    ensures var r := SplitOf(text);
      && r.stockPicks != [] && r.optionsPicks != [] && r.finalVerdict != []
      && IsStripped(r.stockPicks) && IsStripped(r.optionsPicks) && IsStripped(r.finalVerdict)
    ensures text != [] ==>
      && (SplitOf(text).stockPicks == NoStocks || SplitOf(text).stockPicks == Cleaned(SectionText(text, StockSections)))
      && (SplitOf(text).optionsPicks == NoOptions || SplitOf(text).optionsPicks == Cleaned(SectionText(text, OptionsSections)))
      && (SplitOf(text).finalVerdict == NoVerdict || SplitOf(text).finalVerdict == Cleaned(SectionText(text, VerdictSections)))
    ensures text != [] && FirstSection(text, StockSections).None? ==> SplitOf(text).stockPicks == NoStocks
    ensures text != [] && FirstSection(text, OptionsSections).None? ==> SplitOf(text).optionsPicks == NoOptions
    ensures text != [] && FirstSection(text, VerdictSections).None? ==> SplitOf(text).finalVerdict == NoVerdict
    ensures text != [] ==> var r := SplitOf(text);
      (r.stockPicks != NoStocks ==> !Contains(r.stockPicks, LanguageNote))
      && (r.optionsPicks != NoOptions ==> !Contains(r.optionsPicks, LanguageNote))
      && (r.finalVerdict != NoVerdict ==> !Contains(r.finalVerdict, LanguageNote))
  {
    SentinelsStripped();
    CleanedEmpty();
    if text != [] {
      CleanedHasNoNote(SectionText(text, StockSections));
      CleanedHasNoNote(SectionText(text, OptionsSections));
      CleanedHasNoNote(SectionText(text, VerdictSections));
    }
  }

  // ---------------------------------------------------------------------------
  // simple_markdown_to_html
  // ---------------------------------------------------------------------------

  /** This version styles nothing: a paragraph is the stripped line. */
  const Verbatim: string -> string := (t: string) => t

  /** `simple_markdown_to_html`: bold, then the same line loop as the current
      version with no inline styling. */
  method MarkdownToHtml(text: string) returns (html: string)
    ensures text == [] ==> html == []
    ensures text != [] ==> html == Unlines(Html.Tags(Html.Render(Lines(Html.Embolden(text, 0)), false, false, Verbatim)))
  {
    html := Html.MarkdownToHtml(text, Verbatim);
  }

  /** Each paragraph is one of the lines, stripped, non-empty and not a
      bullet, with nothing added. */
  lemma {:induction false} VerbatimParagraphs(lines: seq<string>)
    ensures forall t :: t in Html.Paragraphs(lines, Verbatim) ==>
      && t != [] && IsStripped(t) && !Html.IsBullet(t)
      && exists k :: 0 <= k < |lines| && t == Strip(lines[k])
  {
    if lines != [] {
      VerbatimParagraphs(lines[1..]);
      var st := Strip(lines[0]);
      assert Verbatim(st) == st;
      var head: seq<string> := if !Html.IsBullet(st) && st != [] then [st] else [];
      var rest := Html.Paragraphs(lines[1..], Verbatim);
      assert Html.Paragraphs(lines, Verbatim) == head + rest;
      forall t | t in head + rest
        ensures t != [] && IsStripped(t) && !Html.IsBullet(t)
        ensures exists k :: 0 <= k < |lines| && t == Strip(lines[k])
      {
        if t in head {
          assert t == Strip(lines[0]);
        } else {
          var k :| 0 <= k < |lines[1..]| && t == Strip(lines[1..][k]);
          assert lines[1..][k] == lines[k + 1];
        }
      }
    }
  }
}
