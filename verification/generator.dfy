/** The current, bilingual parser (python/generate_html.py): the stock and
    option pick extractors, the expiry clean-up, and the section splitter
    with its `clean_section` chain. The `re.finditer` calls over the pick
    patterns are given as a `matcher`: `matcher(k, section)` is the sequence
    of matches of the k-th pattern, in scan order. */
module Generator {
  import opened Text
  import opened Sections
  import opened Picks
  import opened Dates
  import opened Cleaning

  // ---------------------------------------------------------------------------
  // Section patterns (shared by the parsers and the splitter)
  // ---------------------------------------------------------------------------

  /** `\*\*STOCK PICKS[^:]*:\*\*(.+?)(?:\*\*OPTIONS PICKS|\*\*期權建議|$)` and
      `\*\*股票建議[^:：]*[:：]\*\*(.+?)(?:\*\*OPTIONS|\*\*期權|$)`. */
  const StockSections: seq<SectionPattern> := [
    SectionPattern("**STOCK PICKS", {':'}, ["**OPTIONS PICKS", "**期權建議"]),
    SectionPattern("**股票建議", {':', '：'}, ["**OPTIONS", "**期權"])
  ]

  const OptionsSections: seq<SectionPattern> := [
    SectionPattern("**OPTIONS PICKS", {':'}, ["**FINAL VERDICT", "**總結", "---"]),
    SectionPattern("**期權建議", {':', '：'}, ["**FINAL", "**總結", "---"])
  ]

  /** `(.+?)$`: no terminator, the group runs to `$`. */
  const VerdictSections: seq<SectionPattern> := [
    SectionPattern("**FINAL VERDICT", {':'}, []),
    SectionPattern("**總結", {':', '：'}, [])
  ]

  // ---------------------------------------------------------------------------
  // parse_stock_picks
  // ---------------------------------------------------------------------------

  /** The number of `top_patterns` for stocks. */
  const StockPatternCount := 5

  /** The alternatives of the action group; the case-insensitive match may
      spell the English ones in any case. */
  const StockTokens: seq<string> := ["BUY", "SELL", "HOLD", "PASS", "買入", "賣出", "持有"]

  /** The canonical action of each alternative, position by position. */
  const StockCanonical: seq<string> := ["BUY", "SELL", "HOLD", "PASS", "BUY", "SELL", "HOLD"]

  /** Tickers that are words of the report format, compared case-sensitively. */
  const StockReserved: seq<string> := ["BUY", "SELL", "CALL", "PUT", "ETF", "PASS", "TOP"]

  predicate StockTokenOk(m: RawStock) {
    exists k :: 0 <= k < |StockTokens| && EqualsIgnoreCase(m.action, StockTokens[k])
  }

  /** 買入, 賣出, 持有 become BUY, SELL, HOLD. */
  function StockAction(action: string): string {
    if action == "買入" then "BUY"
    else if action == "賣出" then "SELL"
    else if action == "持有" then "HOLD"
    else action
  }

  /** Whatever spelling of an alternative the match used, the translation
      after `upper()` gives that alternative's canonical form. */
  lemma StockCanonicalOf(t: string, k: nat)
    requires k < |StockTokens| && EqualsIgnoreCase(t, StockTokens[k])
    ensures StockAction(Upper(t)) == StockCanonical[k]
  {
    var w := StockTokens[k];
    assert PlainToken(w);
    UpperOfMatchedToken(t, w);
  }

  /** The body of the inner loop for one match, up to the duplicate check. */
  function AcceptStock(m: RawStock): Option<Pick> {
    var action := Upper(m.action);
    if m.ticker in StockReserved || action == "PASS" then None
    else Some(StockPick(m.ticker, StockAction(action), m.topNum, "", "Medium"))
  }

  /** A match is kept exactly when its ticker is not reserved and its action
      is not PASS in any spelling; what is kept is a stock pick whose action
      is BUY, SELL or HOLD, namely the canonical form of the alternative the
      match spelt. */
  lemma AcceptStockFacts(m: RawStock)
    requires StockTokenOk(m)
    ensures AcceptStock(m).Some? <==> m.ticker !in StockReserved && !EqualsIgnoreCase(m.action, "PASS")
    ensures AcceptStock(m).Some? ==>
      var p := AcceptStock(m).value;
      && p.StockPick? && p.ticker == m.ticker && p.topNum == m.topNum
      && p.ticker !in StockReserved && p.action in ["BUY", "SELL", "HOLD"]
    ensures AcceptStock(m).Some? ==>
      forall k :: 0 <= k < |StockTokens| && EqualsIgnoreCase(m.action, StockTokens[k]) ==>
        AcceptStock(m).value.action == StockCanonical[k]
  {
    var k :| 0 <= k < |StockTokens| && EqualsIgnoreCase(m.action, StockTokens[k]);
    var w := StockTokens[k];
    assert PlainToken(w);
    UpperOfMatchedToken(m.action, w);
    forall j | 0 <= j < |StockTokens| && EqualsIgnoreCase(m.action, StockTokens[j])
      ensures StockAction(Upper(m.action)) == StockCanonical[j]
    {
      StockCanonicalOf(m.action, j);
    }
    if EqualsIgnoreCase(m.action, "PASS") {
      assert PlainToken("PASS");
      UpperOfMatchedToken(m.action, "PASS");
    }
  }

  function StockSection(text: string): Option<string> {
    if text == [] then None else FirstSection(text, StockSections)
  }

  function StockCandidates(section: string, matcher: (nat, string) -> seq<RawStock>): seq<Pick> {
    Candidates(RawsUpTo(matcher, section, StockPatternCount), AcceptStock)
  }

  /** What `parse_stock_picks` returns. */
  function StockPicksOf(text: string, matcher: (nat, string) -> seq<RawStock>): seq<Pick> {
    match StockSection(text)
    case None => []
    case Some(section) => Ranked(StockCandidates(section, matcher))
  }

  /** One match: skip it, or translate its action and append it unless a pick
      with its ticker is already there. */
  method AddStock(stocks: seq<Pick>, m: RawStock) returns (stocks': seq<Pick>)
    ensures stocks' == match AcceptStock(m)
                       case None => stocks
                       case Some(p) => if HasKey(stocks, Key(p)) then stocks else stocks + [p]
  {
    stocks' := stocks;
    var ticker := m.ticker;
    var action := Upper(m.action);
    if ticker in StockReserved || action == "PASS" {
      return;
    }
    if action == "買入" {
      action := "BUY";
    } else if action == "賣出" {
      action := "SELL";
    } else if action == "持有" {
      action := "HOLD";
    }
    if !HasKey(stocks', (ticker, "")) {
      stocks' := stocks' + [StockPick(ticker, action, m.topNum, "", "Medium")];
    }
  }

  /** The inner loop: every match of one pattern, in scan order. */
  method AddStocks(stocks: seq<Pick>, matches: seq<RawStock>, ghost done: seq<RawStock>) returns (stocks': seq<Pick>)
    requires stocks == Dedup(Candidates(done, AcceptStock))
    ensures stocks' == Dedup(Candidates(done + matches, AcceptStock))
  {
    stocks' := stocks;
    var j := 0;
    ghost var seen := done;
    while j < |matches|
      invariant 0 <= j <= |matches|
      invariant seen == done + matches[..j]
      invariant stocks' == Dedup(Candidates(seen, AcceptStock))
    {
      ghost var before := stocks';
      stocks' := AddStock(stocks', matches[j]);
      DedupStep(seen, matches[j], AcceptStock, before, stocks');
      SeenStep(done, matches, j);
      seen := seen + [matches[j]];
      j := j + 1;
    }
    assert matches[..|matches|] == matches;
  }

  /** The outer loop over the patterns. */
  method CollectStocks(section: string, matcher: (nat, string) -> seq<RawStock>) returns (stocks: seq<Pick>)
    ensures stocks == Dedup(StockCandidates(section, matcher))
  {
    stocks := [];
    var k := 0;
    while k < StockPatternCount
      invariant 0 <= k <= StockPatternCount
      invariant stocks == Dedup(Candidates(RawsUpTo(matcher, section, k), AcceptStock))
    {
      stocks := AddStocks(stocks, matcher(k, section), RawsUpTo(matcher, section, k));
      RawsUpToStep(matcher, section, k);
      k := k + 1;
    }
  }

  /** `parse_stock_picks`: locate the section, run every pattern over it,
      keep the first pick per ticker, sort by rank and keep three. */
  method ParseStockPicks(text: string, matcher: (nat, string) -> seq<RawStock>) returns (picks: seq<Pick>)
    ensures picks == StockPicksOf(text, matcher)
  {
    if text == [] {
      return [];
    }
    var found := FirstMatching(text, StockSections);
    if found.None? {
      return [];
    }
    var stocks := CollectStocks(found.value, matcher);
    stocks := SortByRank(stocks);
    picks := if |stocks| <= 3 then stocks else stocks[..3];
  }

  /** Without text or without a stock section the result is empty. Otherwise
      it holds one stock pick per distinct ticker among the candidates, up to
      three, in ascending rank; none has a reserved ticker; each is the first
      pick its ticker got (pattern order, then scan order), built from one of
      the matches; and a ticker that was cut ranks no better than the ones
      kept, and after any it ties with. */
  lemma StockPicksFacts(text: string, matcher: (nat, string) -> seq<RawStock>)
    ensures StockSection(text).None? ==> StockPicksOf(text, matcher) == []
    ensures StockSection(text).Some? ==>
      var section := StockSection(text).value;
      var raws := RawsUpTo(matcher, section, StockPatternCount);
      var c := StockCandidates(section, matcher);
      var r := StockPicksOf(text, matcher);
      && |r| == (if |Dedup(c)| <= 3 then |Dedup(c)| else 3) && SortedByRank(r) && KeysDistinct(r)
      && (forall p :: p in r ==>
            && p.StockPick? && p.ticker !in StockReserved
            && (exists m :: m in raws && AcceptStock(m) == Some(p))
            && FirstWithKey(c, Key(p)) == Some(p))
      && (forall p, q :: p in c && FirstWithKey(c, Key(p)) == Some(p) && p !in r && q in r ==> q.topNum <= p.topNum)
      && (forall p, q :: p in c && FirstWithKey(c, Key(p)) == Some(p) && p !in r && q in r && p.topNum == q.topNum ==>
            FirstIndex(c, Key(q)) < FirstIndex(c, Key(p)))
  {
    if StockSection(text).Some? {
      var section := StockSection(text).value;
      var raws := RawsUpTo(matcher, section, StockPatternCount);
      var c := StockCandidates(section, matcher);
      RankedFacts(c);
      CandidatesFrom(raws, AcceptStock);
      forall p | p in Ranked(c)
        ensures p.StockPick? && p.ticker !in StockReserved
      {
        var m :| m in raws && AcceptStock(m) == Some(p);
      }
    }
  }

  /** When every match spells one of the action tokens, every returned action
      is BUY, SELL or HOLD. */
  lemma StockActions(text: string, matcher: (nat, string) -> seq<RawStock>, section: string)
    requires StockSection(text) == Some(section)
    requires forall m :: m in RawsUpTo(matcher, section, StockPatternCount) ==> StockTokenOk(m)
    ensures forall p :: p in StockPicksOf(text, matcher) ==> p.StockPick? && p.action in ["BUY", "SELL", "HOLD"]
  {
    var raws := RawsUpTo(matcher, section, StockPatternCount);
    var c := StockCandidates(section, matcher);
    assert StockPicksOf(text, matcher) == Ranked(c);
    RankedIn(c);
    CandidatesFrom(raws, AcceptStock);
    forall p | p in Ranked(c)
      ensures p.StockPick? && p.action in ["BUY", "SELL", "HOLD"]
    {
      assert p in c;
      var m :| m in raws && AcceptStock(m) == Some(p);
      AcceptStockFacts(m);
    }
  }

  // ---------------------------------------------------------------------------
  // parse_options_picks
  // ---------------------------------------------------------------------------

  const OptionPatternCount := 5

  const OptionTokens: seq<string> := ["CALL", "PUT", "PASS", "認購", "認沽"]

  /** The canonical type of each alternative, position by position. */
  const OptionCanonical: seq<string> := ["CALL", "PUT", "PASS", "CALL", "PUT"]

  const OptionReserved: seq<string> := ["CALL", "PUT", "ETF", "PASS", "TOP"]

  /** `[期權行使價到期]`: the characters of 期權 ("option"), 行使價 ("strike")
      and 到期 ("expires"). */
  const ExpiryWords: set<char> := {'期', '權', '行', '使', '價', '到'}

  predicate OptionTokenOk(m: RawOption) {
    exists k :: 0 <= k < |OptionTokens| && EqualsIgnoreCase(m.kind, OptionTokens[k])
  }

  /** 認購 and 認沽 become CALL and PUT. */
  function OptionKind(kind: string): string {
    if kind == "認購" then "CALL" else if kind == "認沽" then "PUT" else kind
  }

  /** A type already spelt in upper-case English is left alone by `upper()`
      and by the translation, and is not PASS. */
  lemma EnglishKind(kind: string)
    requires kind == "CALL" || kind == "PUT"
    ensures Upper(kind) == kind && OptionKind(kind) == kind && kind != "PASS"
  {
    assert kind[0] != "認購"[0] && kind[0] != "認沽"[0];
    assert PlainToken(kind);
    UpperOfPlain(kind);
  }

  /** The strike and the raw expiry from the groups after the third: a
      non-blank fifth group is the expiry and the fourth the strike; failing
      that, a fourth group holding a CJK character or four digits is taken for
      the expiry; otherwise it is the strike. A strike nobody captured is
      `?`. */
  function StrikeAndExpiry(rest: seq<Option<string>>): (r: (string, string))
    ensures !(|rest| >= 1 && Captured(rest[0])) ==> r.0 == "?"
    ensures r.0 == "?" || (|rest| >= 1 && Captured(rest[0]) && r.0 == rest[0].value)
    ensures r.1 == [] || IsStripped(r.1)
    ensures |rest| >= 2 && Captured(rest[1]) && Strip(rest[1].value) != [] ==>
      r.1 == Strip(rest[1].value) && (Captured(rest[0]) ==> r.0 == rest[0].value)
    ensures (&& |rest| >= 1 && !(|rest| >= 2 && Captured(rest[1]) && Strip(rest[1].value) != [])
             && Captured(rest[0]) && !HasCjk(rest[0].value) && !HasFourDigits(rest[0].value)) ==>
      r == (rest[0].value, "")
    ensures (&& |rest| >= 1 && !(|rest| >= 2 && Captured(rest[1]) && Strip(rest[1].value) != [])
             && Captured(rest[0]) && (HasCjk(rest[0].value) || HasFourDigits(rest[0].value))) ==>
      r == ("?", Strip(rest[0].value))
  {
    if |rest| >= 2 && Captured(rest[1]) && Strip(rest[1].value) != [] then
      (if Captured(rest[0]) then rest[0].value else "?", Strip(rest[1].value))
    else if |rest| >= 1 then
      if Captured(rest[0]) && (HasCjk(rest[0].value) || HasFourDigits(rest[0].value)) then
        ("?", Strip(rest[0].value))
      else
        (if Captured(rest[0]) then rest[0].value else "?", "")
    else ("?", "")
  }

  /** The expiry clean-up: drop the option words, strip, convert a Chinese
      date, drop any CJK left, strip. */
  function CleanExpiry(expiry: string): (r: string)
    ensures !HasCjk(r)
  {
    if expiry == [] then []
    else
      var a := Strip(RemoveChars(expiry, ExpiryWords));
      var b := if HasCjk(a) then ConvertDate(a) else a;
      var c := RemoveCjk(b);
      StripKeeps(c);
      Strip(c)
  }

  /** Whatever spelling of an alternative the match used, the translation
      after `upper()` gives that alternative's canonical form. */
  lemma OptionCanonicalOf(t: string, k: nat)
    requires k < |OptionTokens| && EqualsIgnoreCase(t, OptionTokens[k])
    ensures OptionKind(Upper(t)) == OptionCanonical[k]
  {
    var w := OptionTokens[k];
    assert PlainToken(w);
    UpperOfMatchedToken(t, w);
  }

  function AcceptOption(m: RawOption): Option<Pick> {
    var kind := Upper(m.kind);
    var se := StrikeAndExpiry(m.rest);
    if m.ticker in OptionReserved || kind == "PASS" then None
    else Some(OptionPick(m.ticker, OptionKind(kind), se.0, m.topNum, CleanExpiry(se.1), "Medium"))
  }

  /** A match is kept exactly when its ticker is not reserved and its type is
      not PASS in any spelling; a kept pick is a CALL or a PUT, the canonical
      form of the alternative the match spelt; its strike is `?` unless the
      fourth group captured something; a non-blank fifth group is cleaned into
      the expiry, with a captured fourth group as the strike; failing that, a
      fourth group that looks like a date is cleaned into the expiry and the
      strike is `?`; and the expiry holds no CJK character. */
  lemma AcceptOptionFacts(m: RawOption)
    requires OptionTokenOk(m)
    ensures AcceptOption(m).Some? <==> m.ticker !in OptionReserved && !EqualsIgnoreCase(m.kind, "PASS")
    ensures AcceptOption(m).Some? ==>
      var p := AcceptOption(m).value;
      && p.OptionPick? && p.ticker == m.ticker && p.topNum == m.topNum
      && p.kind in ["CALL", "PUT"]
      && (!(|m.rest| >= 1 && Captured(m.rest[0])) ==> p.strike == "?")
      && !HasCjk(p.expiry)
    ensures AcceptOption(m).Some? ==>
      var p := AcceptOption(m).value;
      && (forall k :: 0 <= k < |OptionTokens| && EqualsIgnoreCase(m.kind, OptionTokens[k]) ==>
            p.kind == OptionCanonical[k])
      && (|m.rest| >= 2 && Captured(m.rest[1]) && Strip(m.rest[1].value) != [] ==>
            p.expiry == CleanExpiry(Strip(m.rest[1].value))
            && (Captured(m.rest[0]) ==> p.strike == m.rest[0].value))
      && ((&& |m.rest| >= 1 && !(|m.rest| >= 2 && Captured(m.rest[1]) && Strip(m.rest[1].value) != [])
           && Captured(m.rest[0]) && (HasCjk(m.rest[0].value) || HasFourDigits(m.rest[0].value))) ==>
            p.strike == "?" && p.expiry == CleanExpiry(Strip(m.rest[0].value)))
  {
    var k :| 0 <= k < |OptionTokens| && EqualsIgnoreCase(m.kind, OptionTokens[k]);
    var w := OptionTokens[k];
    assert PlainToken(w);
    UpperOfMatchedToken(m.kind, w);
    forall j | 0 <= j < |OptionTokens| && EqualsIgnoreCase(m.kind, OptionTokens[j])
      ensures OptionKind(Upper(m.kind)) == OptionCanonical[j]
    {
      OptionCanonicalOf(m.kind, j);
    }
    if EqualsIgnoreCase(m.kind, "PASS") {
      assert PlainToken("PASS");
      UpperOfMatchedToken(m.kind, "PASS");
    }
  }

  function OptionsSection(text: string): Option<string> {
    if text == [] then None else FirstSection(text, OptionsSections)
  }

  function OptionCandidates(section: string, matcher: (nat, string) -> seq<RawOption>): seq<Pick> {
    Candidates(RawsUpTo(matcher, section, OptionPatternCount), AcceptOption)
  }

  /** What `parse_options_picks` returns. */
  function OptionPicksOf(text: string, matcher: (nat, string) -> seq<RawOption>): seq<Pick> {
    match OptionsSection(text)
    case None => []
    case Some(section) => Ranked(OptionCandidates(section, matcher))
  }

  /** The branches that pick the strike and the raw expiry out of the
      groups. */
  method SplitGroups(rest: seq<Option<string>>) returns (strike: string, expiry: string)
    ensures (strike, expiry) == StrikeAndExpiry(rest)
  {
    if |rest| >= 2 && Captured(rest[1]) && Strip(rest[1].value) != [] {
      strike := if Captured(rest[0]) then rest[0].value else "?";
      expiry := Strip(rest[1].value);
    } else if |rest| >= 1 {
      if Captured(rest[0]) && (HasCjk(rest[0].value) || HasFourDigits(rest[0].value)) {
        expiry := Strip(rest[0].value);
        strike := "?";
      } else {
        strike := if Captured(rest[0]) then rest[0].value else "?";
        expiry := "";
      }
    } else {
      strike := "?";
      expiry := "";
    }
  }

  /** The expiry clean-up, one reassignment per step. */
  method TidyExpiry(raw: string) returns (expiry: string)
    ensures expiry == CleanExpiry(raw)
    ensures !HasCjk(expiry)
  {
    expiry := raw;
    if expiry != [] {
      expiry := Strip(RemoveChars(expiry, ExpiryWords));
      if HasCjk(expiry) {
        expiry := ConvertDate(expiry);
      }
      expiry := Strip(RemoveCjk(expiry));
    }
  }

  /** One match: work out strike and expiry, skip it, or translate its type,
      clean its expiry and append it unless the (ticker, type) pair is already
      there. */
  method AddOption(options: seq<Pick>, m: RawOption) returns (options': seq<Pick>)
    ensures options' == match AcceptOption(m)
                        case None => options
                        case Some(p) => if HasKey(options, Key(p)) then options else options + [p]
  {
    options' := options;
    var ticker := m.ticker;
    var optionType := Upper(m.kind);
    var strike, expiry := SplitGroups(m.rest);
    if ticker in OptionReserved || optionType == "PASS" {
      return;
    }
    if optionType == "認購" {
      optionType := "CALL";
    } else if optionType == "認沽" {
      optionType := "PUT";
    }
    expiry := TidyExpiry(expiry);
    if !HasKey(options', (ticker, optionType)) {
      options' := options' + [OptionPick(ticker, optionType, strike, m.topNum, expiry, "Medium")];
    }
  }

  /** The inner loop: every match of one pattern, in scan order. */
  method AddOptions(options: seq<Pick>, matches: seq<RawOption>, ghost done: seq<RawOption>) returns (options': seq<Pick>)
    requires options == Dedup(Candidates(done, AcceptOption))
    ensures options' == Dedup(Candidates(done + matches, AcceptOption))
  {
    options' := options;
    var j := 0;
    ghost var seen := done;
    while j < |matches|
      invariant 0 <= j <= |matches|
      invariant seen == done + matches[..j]
      invariant options' == Dedup(Candidates(seen, AcceptOption))
    {
      ghost var before := options';
      options' := AddOption(options', matches[j]);
      DedupStep(seen, matches[j], AcceptOption, before, options');
      SeenStep(done, matches, j);
      seen := seen + [matches[j]];
      j := j + 1;
    }
    assert matches[..|matches|] == matches;
  }

  /** The outer loop over the patterns. */
  method CollectOptions(section: string, matcher: (nat, string) -> seq<RawOption>) returns (options: seq<Pick>)
    ensures options == Dedup(OptionCandidates(section, matcher))
  {
    options := [];
    var k := 0;
    while k < OptionPatternCount
      invariant 0 <= k <= OptionPatternCount
      invariant options == Dedup(Candidates(RawsUpTo(matcher, section, k), AcceptOption))
    {
      options := AddOptions(options, matcher(k, section), RawsUpTo(matcher, section, k));
      RawsUpToStep(matcher, section, k);
      k := k + 1;
    }
  }

  /** `parse_options_picks`. */
  method ParseOptionsPicks(text: string, matcher: (nat, string) -> seq<RawOption>) returns (picks: seq<Pick>)
    ensures picks == OptionPicksOf(text, matcher)
  {
    if text == [] {
      return [];
    }
    var found := FirstMatching(text, OptionsSections);
    if found.None? {
      return [];
    }
    var options := CollectOptions(found.value, matcher);
    options := SortByRank(options);
    picks := if |options| <= 3 then options else options[..3];
  }

  /** Without text or without an options section the result is empty.
      Otherwise it holds one option pick per distinct (ticker, type) pair
      among the candidates, up to three, in ascending rank; none has a
      reserved ticker; every expiry is free of CJK characters; each is the
      first pick of its pair, built from one of the matches; and a pair that was cut ranks no
      better than the ones kept, and after any it ties with. */
  lemma OptionPicksFacts(text: string, matcher: (nat, string) -> seq<RawOption>)
    ensures OptionsSection(text).None? ==> OptionPicksOf(text, matcher) == []
    ensures OptionsSection(text).Some? ==>
      var section := OptionsSection(text).value;
      var raws := RawsUpTo(matcher, section, OptionPatternCount);
      var c := OptionCandidates(section, matcher);
      var r := OptionPicksOf(text, matcher);
      && |r| == (if |Dedup(c)| <= 3 then |Dedup(c)| else 3) && SortedByRank(r) && KeysDistinct(r)
      && (forall p :: p in r ==>
            && p.OptionPick? && p.ticker !in OptionReserved && !HasCjk(p.expiry)
            && (exists m :: m in raws && AcceptOption(m) == Some(p))
            && FirstWithKey(c, Key(p)) == Some(p))
      && (forall p, q :: p in c && FirstWithKey(c, Key(p)) == Some(p) && p !in r && q in r ==> q.topNum <= p.topNum)
      && (forall p, q :: p in c && FirstWithKey(c, Key(p)) == Some(p) && p !in r && q in r && p.topNum == q.topNum ==>
            FirstIndex(c, Key(q)) < FirstIndex(c, Key(p)))
  {
    if OptionsSection(text).Some? {
      var section := OptionsSection(text).value;
      var raws := RawsUpTo(matcher, section, OptionPatternCount);
      var c := OptionCandidates(section, matcher);
      RankedFacts(c);
      CandidatesFrom(raws, AcceptOption);
      forall p | p in Ranked(c)
        ensures p.OptionPick? && p.ticker !in OptionReserved && !HasCjk(p.expiry)
      {
        var m :| m in raws && AcceptOption(m) == Some(p);
      }
    }
  }

  /** When every match spells one of the type tokens, every returned type is
      CALL or PUT, and a strike is `?` whenever the pick's match captured no
      fourth group. */
  lemma OptionTypesAndStrikes(text: string, matcher: (nat, string) -> seq<RawOption>, section: string)
    requires OptionsSection(text) == Some(section)
    requires forall m :: m in RawsUpTo(matcher, section, OptionPatternCount) ==> OptionTokenOk(m)
    ensures forall p :: p in OptionPicksOf(text, matcher) ==>
      && p.OptionPick? && p.kind in ["CALL", "PUT"]
      && exists m :: m in RawsUpTo(matcher, section, OptionPatternCount) && AcceptOption(m) == Some(p)
                     && (!(|m.rest| >= 1 && Captured(m.rest[0])) ==> p.strike == "?")
  {
    var raws := RawsUpTo(matcher, section, OptionPatternCount);
    var c := OptionCandidates(section, matcher);
    RankedFacts(c);
    CandidatesFrom(raws, AcceptOption);
    forall p | p in OptionPicksOf(text, matcher)
      ensures p.OptionPick? && p.kind in ["CALL", "PUT"]
      ensures exists m :: m in raws && AcceptOption(m) == Some(p)
                     && (!(|m.rest| >= 1 && Captured(m.rest[0])) ==> p.OptionPick? && p.strike == "?")
    {
      var m :| m in raws && AcceptOption(m) == Some(p);
      AcceptOptionFacts(m);
    }
  }

  /** A lone captured strike holding four digits in a row is taken for the
      expiry, and the strike becomes `?`. */
  lemma FourDigitStrikeIsExpiry(v: string)
    requires v != [] && HasFourDigits(v) && IsStripped(v)
    ensures StrikeAndExpiry([Some(v), None]) == ("?", v)
  {
    StripStripped(v);
  }

  /** An expiry with no option word, no CJK character and no surrounding
      whitespace comes through the clean-up unchanged. */
  lemma PlainExpiryKept(v: string)
    requires IsStripped(v) && !HasCjk(v)
    requires forall i :: 0 <= i < |v| ==> v[i] !in ExpiryWords
    ensures CleanExpiry(v) == v
  {
    if v != [] {
      RemoveCharsNone(v, ExpiryWords);
      StripStripped(v);
      RemoveCjkNone(v);
    }
  }

  /** `**Top 1: XOM CALL** at $1200` matches the second pattern with no
      expiry group; the elif branch then sees four digits in the strike and
      takes it for the expiry, so the pick has strike `?` and the number as
      its expiry. */
  lemma FourDigitStrikeBecomesExpiry(m: RawOption, v: string)
    requires m.rest == [Some(v), None] && m.ticker !in OptionReserved && (m.kind == "CALL" || m.kind == "PUT")
    requires v != [] && AllDigits(v) && |v| == 4
    ensures AcceptOption(m) == Some(OptionPick(m.ticker, m.kind, "?", m.topNum, v, "Medium"))
  {
    assert FourDigitsAt(v, 0) by { assert v[0..4] == v; }
    FourDigitStrikeIsExpiry(v);
    PlainExpiryKept(v);
    EnglishKind(m.kind);
  }

  /** `YYYY年M月底` has no surrounding whitespace, holds CJK and holds none of
      the option words. */
  lemma MonthEndCore(y: string, mm: string)
    requires Stamp(y, mm)
    ensures var core := y + "年" + mm + "月底";
      && IsStripped(core) && HasCjk(core) && forall i :: 0 <= i < |core| ==> core[i] !in ExpiryWords
  {
    var core := y + "年" + mm + "月底";
    assert core[4] == '年' && IsCjk(core[4]);
    assert core[0] == y[0] && core[|core| - 1] == '底';
    forall i | 0 <= i < |core| ensures core[i] !in ExpiryWords {
      if i < 4 {
        assert core[i] == y[i];
      } else if 5 <= i < 5 + |mm| {
        assert core[i] == mm[i - 5];
      }
    }
  }

  /** Dropping the option words from `core` followed by 到期 leaves `core`
      when `core` holds none of them. */
  lemma ExpirySuffixDropped(core: string)
    requires forall i :: 0 <= i < |core| ==> core[i] !in ExpiryWords
    ensures RemoveChars(core + "到期", ExpiryWords) == core
  {
    RemoveCharsAppend(core, "到期", ExpiryWords);
    assert RemoveChars("期", ExpiryWords) == [];
    assert RemoveChars("到期", ExpiryWords) == [];
    RemoveCharsNone(core, ExpiryWords);
  }

  /** An expiry that is a Chinese date once the option words are gone comes
      out as that date converted, when the conversion yields a clean date. */
  lemma CleanExpiryConverts(raw: string, core: string, d: string)
    requires raw != [] && RemoveChars(raw, ExpiryWords) == core
    requires IsStripped(core) && HasCjk(core) && ConvertDate(core) == d
    requires IsStripped(d) && !HasCjk(d)
    ensures CleanExpiry(raw) == d
  {
    StripStripped(core);
    RemoveCjkNone(d);
    StripStripped(d);
  }

  /** An expiry written `YYYY年M月底到期` comes out as the English date of the
      last day of that month. */
  lemma CleanExpiryMonthEnd(y: string, mm: string)
    requires Stamp(y, mm)
    ensures CleanExpiry(y + "年" + mm + "月底" + "到期")
         == MonthNames[DigitsValue(mm) - 1] + " " + Decimal(DaysInMonth(DigitsValue(y), DigitsValue(mm))) + ", " + y
  {
    var core := y + "年" + mm + "月底";
    MonthEndCore(y, mm);
    ExpirySuffixDropped(core);
    ConvertMonthEnd(y, mm, "");
    assert core + "" == core;
    var day := Decimal(DaysInMonth(DigitsValue(y), DigitsValue(mm)));
    EnglishDate(DigitsValue(mm) - 1, day, y);
    CleanExpiryConverts(core + "到期", core, MonthNames[DigitsValue(mm) - 1] + " " + day + ", " + y);
  }

  /** An English date built from a month name and digits holds no CJK
      character and neither starts nor ends with whitespace. */
  lemma EnglishDate(i: nat, day: string, y: string)
    requires i < 12 && AllDigits(day) && |y| == 4 && AllDigits(y)
    ensures var d := MonthNames[i] + " " + day + ", " + y;
      !HasCjk(d) && IsStripped(d)
  {
    var d := MonthNames[i] + " " + day + ", " + y;
    MonthNamesAscii(i);
    forall k | 0 <= k < |d| ensures !IsCjk(d[k]) {
      if k < 3 {
        assert d[k] == MonthNames[i][k];
      } else if k == 3 {
      } else if k < 4 + |day| {
        assert d[k] == day[k - 4];
      } else if k < 6 + |day| {
      } else {
        assert d[k] == y[k - 6 - |day|];
      }
    }
    assert d[0] == MonthNames[i][0];
    assert d[|d| - 1] == y[3];
  }

  lemma MonthNamesAscii(i: nat)
    requires i < 12
    ensures |MonthNames[i]| == 3 && forall k :: 0 <= k < 3 ==> IsAsciiLetter(MonthNames[i][k])
  {
  }

  // ---------------------------------------------------------------------------
  // split_ai_output_into_sections and clean_section
  // ---------------------------------------------------------------------------

  /** The substitutions of `clean_section` that are not modelled here: the
      meta-sentence removals (language notes, persona mentions) and the
      PASS-boilerplate removals. */
  datatype Scrubbers = Scrubbers(meta: string -> string, boilerplate: string -> string)

  /** Each of those substitutions needs literal text to match, so it leaves
      the empty string alone. */
  predicate KeepsEmpty(sc: Scrubbers) {
    sc.meta([]) == [] && sc.boilerplate([]) == []
  }

  /** `clean_section`: separator lines, strip, the comparison block, the
      unified title, the meta sentences, the four hashtag steps, the
      boilerplate, strip. */
  function Cleaned(t: string, sc: Scrubbers): (r: string)
    ensures IsStripped(r)
  {
    var t := DropSeparators(t);
    var t := Strip(t);
    var t := DropAgentComparison(t);
    var t := DropUnifiedTitle(t);
    var t := sc.meta(t);
    var t := DropHashtags(t);
    var t := sc.boilerplate(t);
    Strip(t)
  }

  method CleanSection(sectionText: string, sc: Scrubbers) returns (cleaned: string)
    ensures cleaned == Cleaned(sectionText, sc)
    ensures IsStripped(cleaned)
  {
    var t := sectionText;
    t := DropSeparators(t);
    t := Strip(t);
    t := DropAgentComparison(t);
    t := DropUnifiedTitle(t);
    t := sc.meta(t);
    t := DropWordTags(t);
    t := DropSpaceTags(t);
    t := DropSpacedHashes(t);
    t := DropLineHashes(t);
    t := sc.boilerplate(t);
    cleaned := Strip(t);
  }

  /** The stripped group of the first section pattern that matches, or "". */
  function SectionText(text: string, pats: seq<SectionPattern>): string {
    match FirstSection(text, pats)
    case None => ""
    case Some(g) => Strip(g)
  }

  function SplitOf(text: string, sc: Scrubbers): Report {
    if text == [] then Report(NoStocks, NoOptions, NoVerdict)
    else Report(OrElse(Cleaned(SectionText(text, StockSections), sc), NoStocks),
                OrElse(Cleaned(SectionText(text, OptionsSections), sc), NoOptions),
                OrElse(Cleaned(SectionText(text, VerdictSections), sc), NoVerdict))
  }

  /** `split_ai_output_into_sections`. */
  method SplitSections(text: string, sc: Scrubbers) returns (report: Report)
    ensures report == SplitOf(text, sc)
  {
    if text == [] {
      return Report(NoStocks, NoOptions, NoVerdict);
    }
    var stockSection := "";
    var found := FirstMatching(text, StockSections);
    if found.Some? {
      stockSection := Strip(found.value);
    }
    var optionsSection := "";
    found := FirstMatching(text, OptionsSections);
    if found.Some? {
      optionsSection := Strip(found.value);
    }
    var verdictSection := "";
    found := FirstMatching(text, VerdictSections);
    if found.Some? {
      verdictSection := Strip(found.value);
    }
    var stocks := CleanSection(stockSection, sc);
    var options := CleanSection(optionsSection, sc);
    var verdict := CleanSection(verdictSection, sc);
    report := Report(OrElse(stocks, NoStocks), OrElse(options, NoOptions), OrElse(verdict, NoVerdict));
  }

  lemma SentinelsStripped()
    ensures IsStripped(NoStocks) && IsStripped(NoOptions) && IsStripped(NoVerdict)
  {
    assert NoStocks[0] == 'N' && NoStocks[|NoStocks| - 1] == '.';
    assert NoOptions[0] == 'N' && NoOptions[|NoOptions| - 1] == '.';
    assert NoVerdict[0] == 'N' && NoVerdict[|NoVerdict| - 1] == '.';
  }

  /** Empty text gives the three sentinels. Otherwise no field is empty and
      none starts or ends with whitespace; a field is its cleaned section
      unless cleaning leaves nothing, and then its sentinel; a section that is
      not there gives its sentinel. */
  lemma SplitFacts(text: string, sc: Scrubbers)
    ensures text == [] ==> SplitOf(text, sc) == Report(NoStocks, NoOptions, NoVerdict)
    ensures var r := SplitOf(text, sc);
      && r.stockPicks != [] && r.optionsPicks != [] && r.finalVerdict != []
      && IsStripped(r.stockPicks) && IsStripped(r.optionsPicks) && IsStripped(r.finalVerdict)
    ensures text != [] ==>
      && (SplitOf(text, sc).stockPicks == NoStocks || SplitOf(text, sc).stockPicks == Cleaned(SectionText(text, StockSections), sc))
      && (SplitOf(text, sc).optionsPicks == NoOptions || SplitOf(text, sc).optionsPicks == Cleaned(SectionText(text, OptionsSections), sc))
      && (SplitOf(text, sc).finalVerdict == NoVerdict || SplitOf(text, sc).finalVerdict == Cleaned(SectionText(text, VerdictSections), sc))
    ensures text != [] && KeepsEmpty(sc) && FirstSection(text, StockSections).None? ==> SplitOf(text, sc).stockPicks == NoStocks
    ensures text != [] && KeepsEmpty(sc) && FirstSection(text, OptionsSections).None? ==> SplitOf(text, sc).optionsPicks == NoOptions
    ensures text != [] && KeepsEmpty(sc) && FirstSection(text, VerdictSections).None? ==> SplitOf(text, sc).finalVerdict == NoVerdict
  {
    SentinelsStripped();
    if KeepsEmpty(sc) {
      CleanedEmpty(sc);
    }
  }

  /** Nothing to clean gives nothing. */
  lemma CleanedEmpty(sc: Scrubbers)
    requires KeepsEmpty(sc)
    ensures Cleaned([], sc) == []
  {
    MapLinesEmpty(Unseparate);
    assert Strip([]) == [];
    assert DropAgentComparison([]) == [];
    assert DropUnifiedTitle([]) == [];
    assert DropHashtags([]) == [];
  }

  /** Scrubbers that change nothing: what the meta-sentence and boilerplate
      substitutions do to text holding none of their literal phrases. */
  const Verbatim := Scrubbers(t => t, t => t)

  /** `clean_section` is not idempotent: `a ## foo` cleans to `a #foo`, and
      cleaning that again removes the hashtag left behind, giving `a`. */
  lemma CleanTwiceDiffers(t: string)
    requires t == "a ## foo"
    ensures Cleaned(t, Verbatim) == "a #foo"
    ensures Cleaned(Cleaned(t, Verbatim), Verbatim) == "a"
  {
    CleanOnce(t);
    CleanAgain("a #foo");
  }

  lemma CleanOnce(t: string)
    requires t == "a ## foo"
    ensures Cleaned(t, Verbatim) == "a #foo"
  {
    assert !IsSpace(t[0]) && !IsSpace(t[|t| - 1]) && !IsDash(t[0]);
    assert '\n' !in t && '*' !in t;
    PlainLineKept(t);
    StripStripped(t);
    HashtagsNotIdempotent(t);
    var h := "a #foo";
    assert !IsSpace(h[0]) && !IsSpace(h[|h| - 1]);
    StripStripped(h);
  }

  lemma CleanAgain(t: string)
    requires t == "a #foo"
    ensures Cleaned(t, Verbatim) == "a"
  {
    assert !IsSpace(t[0]) && !IsSpace(t[|t| - 1]) && !IsDash(t[0]);
    assert '\n' !in t && '*' !in t;
    PlainLineKept(t);
    StripStripped(t);
    HashOnceMore(t);
    var u := "a ";
    assert IsSpace(u[1]) && !IsSpace(u[0]);
    assert Strip(u) == "a";
  }
}
