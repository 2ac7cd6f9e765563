# TruthDock recommendation extraction, modelled in Dafny

TruthDock builds a static HTML page from stored AI analyses of social-media
posts. Each analysis is free text. Before rendering, the generator pulls out
three things:

- a **STOCK PICKS** section, giving up to three stock picks (ticker, BUY/SELL/HOLD, rank);
- an **OPTIONS PICKS** section, giving up to three option picks (ticker, CALL/PUT, strike, expiry);
- a **FINAL VERDICT** section.

Each section exists in an English and a Traditional Chinese spelling. The
extracted text is cleaned of separators and boilerplate, HTML-escaped,
turned into simple HTML (bold, bullet lists, paragraphs), and the posts are
cut into batches of five for lazy loading.

The repository has two versions of this generator, and each is its own module:

- `python/generate_html.py`, the current version, is module `Generator`.
- `generate_html.py` at the repository root, the older version, is module `Legacy`.

What the two share lives in library modules:

| module | file | content |
|---|---|---|
| `Text` | text.dfy | Python string primitives: `str.strip`, the `\s` whitespace set, the CJK block, case folding for `re.IGNORECASE`, `.upper()`, `str.replace`, `split('\n')`/`'\n'.join`, digits. |
| `Sections` | sections.dfy | `re.search(r'\*\*HEADER[^:]*:\*\*(.+?)(?:T1\|T2\|$)', text, DOTALL\|IGNORECASE)`: a leftmost header, then the shortest content up to the first terminator. Also "the first pattern of a list that matches wins". |
| `Picks` | picks.dfy | The pick records, the "already added" test (first occurrence of a key wins), the stable sort by `top_num` and the cut to three. |
| `Dates` | dates.dfy | `convert_chinese_date_to_english` with a Gregorian `monthrange`. |
| `Cleaning` | cleaning.dfy | `re.sub` for patterns that never match the empty string. Also the separator, AGENT COMPARISON, FINAL UNIFIED and hashtag substitutions of `clean_section`, and the three sentinel strings. |
| `Html` | html.dfy | `escape_html` (with an unescaper, for the round trip), `detect_language`, `simple_markdown_to_html` as a line-by-line state machine, and the batch numbering of `generate_html_page`. |

`escape_html`, `detect_language` and the batch numbering are textually
identical in both versions, with the same constants `POSTS_PER_BATCH = 5`
and `INITIAL_VISIBLE_BATCHES = 1` (`generate_html.py:257-276` and
`generate_html.py:567-579` in the older file). They are modelled once, in `Html`,
and the table below cites the current file for them.

How the pick loops are modelled:

- The `re.finditer` scans are a `matcher` parameter. It yields the raw matches (`RawStock`, `RawOption`) of pattern `k` over a section, in scan order.
- The parsers are methods whose loops run over the patterns and their matches. They keep the accumulated list equal to `Dedup(Candidates(...))` of the matches seen so far.
- `Picks.Ranked` then sorts stably by rank and keeps three.

Where a docstring and the code disagree, the model follows the code:

- `convert_chinese_date_to_english` documents `2026年1月31日到期 -> Jan 31, 2026`, but the code returns `Jan 2026`. The month-only search `(?!底)` already matches the `2026年1月` prefix, so the day branch runs only when the leftmost month is out of range. `Dates.ConvertDayDropsDay` and `Dates.DayBranchExample` state both facts.
- In the current version, a 4-digit value captured as a strike with no expiry becomes the expiry and leaves the strike `?` (`Generator.FourDigitStrikeBecomesExpiry`).
- `re.sub(r'#\s+', '', ...)` turns `a ## foo` into `a #foo`, so a tag survives the hashtag clean-up (`Cleaning.DoubleHashLeavesTag`).

## Model

| member | source | states |
|---|---|---|
| Text.Strip | python/generate_html.py:430 | The result has no leading or trailing whitespace, is no longer than the input, and is empty exactly when the input is all whitespace. |
| Text.StripStripped | python/generate_html.py:637 | Stripping an already stripped text changes nothing. |
| Text.UnlinesLines | python/generate_html.py:425 | Joining the lines of `text.split('\n')` with `'\n'` gives back the text. |
| Text.LinesUnlines | python/generate_html.py:528 | Splitting a join of newline-free lines gives back exactly those lines. |
| Text.DecimalRoundTrip | python/generate_html.py:248 | The decimal rendering of a day number reads back as that number. |
| Sections.FirstColon | python/generate_html.py:163 | `[^:]*:` stops at the first colon after the header and nowhere earlier. |
| Sections.LazyEnd | python/generate_html.py:163 | `(.+?)(?:T1\|T2\|$)` ends at the first position where a terminator or the end of text occurs. |
| Sections.SearchFindsLeftmostShortest | python/generate_html.py:162-172 | A found section is the content after the leftmost header match, running to the first stop after at least one character. |
| Sections.SearchNoneWhenHeaderAbsent | python/generate_html.py:174-175 | Without the header (in any letter case), nothing is found. |
| Sections.FirstSection | python/generate_html.py:167-172 | The result is the section of the first pattern that matches, and nothing when no pattern matches. |
| Sections.FirstMatching | python/generate_html.py:167-172 | The pattern loop with `break` returns `FirstSection`, which is non-empty when present. |
| Picks.FirstWithKeyFound | python/generate_html.py:210 | The "already added" scan finds a pick exactly when one with that key exists, and the pick it finds has that key. |
| Picks.DedupFirstWins | python/generate_html.py:209-217 | The de-duplicated list has distinct keys, covers the same keys as its input, keeps the first pick of each key, and keeps the keys in the order of their first appearance. |
| Picks.DedupStep | python/generate_html.py:209-217 | Appending one accepted match when its key is new (and skipping it otherwise) keeps the list equal to the de-duplication of all matches so far. |
| Picks.CandidatesFrom | python/generate_html.py:190-199 | Every candidate comes from some raw match that the filter accepted. |
| Picks.SortPermutes | python/generate_html.py:220 | The sort by `top_num` is a permutation. |
| Picks.SortByRankFacts | python/generate_html.py:220 | The sort orders by rank, is a permutation, is stable (picks of equal rank keep their order), and keeps keys distinct. |
| Picks.SortStable | python/generate_html.py:220 | Of two sorted picks of equal rank, the one placed first comes first in the input. |
| Picks.TopThreeFacts | python/generate_html.py:219-221 | The result is the first min(n, 3) picks of the stable sort, all from the input and sorted. None that was left out ranks better, and one left out with the same rank as a kept pick comes later in the input. |
| Picks.RankedFacts | python/generate_html.py:209-221 | The returned list has one pick per distinct key, up to three. It is sorted with distinct keys and holds only first occurrences. No first occurrence left out ranks better than a kept one, and on a tie the kept one came first among the candidates. |
| Dates.DaysInMonth | python/generate_html.py:247 | The last day of a month is between 28 and 31. |
| Dates.YearLength | python/generate_html.py:247 | A year has 366 days exactly when it is a leap year. February has 29 days exactly in leap years, and other months do not depend on the year. |
| Dates.Leftmost | python/generate_html.py:239 | `re.search` finds the leftmost position where the date pattern matches, or reports that none does. |
| Dates.ConvertDate | python/generate_html.py:232-233 | The empty string is returned unchanged. |
| Dates.ConvertMonthEnd | python/generate_html.py:235-248 | `YYYY年M月底` plus an optional `到期` becomes `Mon D, YYYY` with D the month's last day. |
| Dates.ConvertMonth | python/generate_html.py:250-258 | `YYYY年M月` plus an optional `到期` becomes `Mon YYYY`. |
| Dates.ConvertDayDropsDay | python/generate_html.py:250-269 | `YYYY年M月D日` becomes `Mon YYYY`: the month-only search wins before the day branch is reached. |
| Dates.DayExampleSearches | python/generate_html.py:239-269 | On `2026年13月2026年1月5日`, the month-end search fails and the month-only search finds an invalid month, so the day search finds a valid month. |
| Dates.DayBranchExample | python/generate_html.py:260-269 | That input reaches the day branch and becomes `Jan 5, 2026`. |
| Dates.ConvertPassesThrough | python/generate_html.py:271-272 | A stripped text with no `年` and no `到` comes back unchanged. |
| Dates.ConvertFallback | python/generate_html.py:235-272 | Any non-empty text without `年` matches no date pattern and comes back with `到期` removed and stripped. |
| Dates.ConvertBadMonthExample | python/generate_html.py:239-272 | A stamp whose month is outside 1..12 is not converted: `2026年13月到期` gives `2026年13月`. |
| Cleaning.OrElse | python/generate_html.py:640-642 | `cleaned or sentinel` is never empty, and it is the sentinel only when the cleaned text is empty. |
| Cleaning.SubSkips | python/generate_html.py:586-613 | Where the pattern matches nowhere, `re.sub` copies the text unchanged up to the next match. |
| Cleaning.SubAtMatch | python/generate_html.py:586-613 | At a match, `re.sub` emits the replacement and resumes after the match. |
| Cleaning.SubNoMatch | python/generate_html.py:586-613 | A text with no match is returned unchanged. |
| Cleaning.DropSeparatorsLines | python/generate_html.py:586 | The text keeps its lines. Each separator line becomes empty, every other line is kept, and no separator line remains. |
| Cleaning.DropAgentComparisonKeeps | python/generate_html.py:590 | The text before the first `**AGENT COMPARISON:**` (in any case) is kept. |
| Cleaning.DropAgentComparisonFirst | python/generate_html.py:590 | The first AGENT COMPARISON block is removed up to the next `**` or the end of text, and the scan resumes there. |
| Cleaning.DropUnifiedTitleKeeps | python/generate_html.py:592 | The text before the first FINAL UNIFIED RECOMMENDATIONS title is kept. |
| Cleaning.DropMarksFacts | python/generate_html.py:609-610 | After removing `#` followed by a run of a character class, no `#` is left directly before a character of that class. |
| Cleaning.HashtagSteps | python/generate_html.py:609-612 | After the first two steps, no `#` precedes a word or space character, and the third step then has nothing left to replace. |
| Cleaning.DoubleHashLeavesTag | python/generate_html.py:609-610 | `a ## foo` survives the `#\w+` step and becomes `a #foo` after the `#\s+` step. |
| Cleaning.SubShrinks | python/generate_html.py:609-612 | A substitution whose matches are all longer than its replacement never lengthens the text, and keeps its length only when it changes nothing. |
| Cleaning.DropHashtagsShrinks | python/generate_html.py:609-612 | The four hashtag steps never lengthen the text. When the length is kept, each step changed nothing. |
| Cleaning.NoHashKept | python/generate_html.py:609-612 | A text without `#` passes each hashtag step unchanged. |
| Cleaning.PlainLineKept | python/generate_html.py:586-592 | A single line without `*` that does not start with a dash is untouched by the separator, comparison-block and title substitutions. |
| Cleaning.HashtagsNotIdempotent | python/generate_html.py:609-612 | One pass turns `a ## foo` into `a #foo`, which still has a `#` before a word character, and a second pass gives `a `. |
| Cleaning.DropAllHashtags | python/generate_html.py:609-612 | The corrected hashtag removal repeats the steps until they change nothing. Its result is a fixed point of the steps, and no `#` is left before a word or space character. |
| Cleaning.DropAllHashtagsIdempotent | python/generate_html.py:609-612 | Removing all hashtags twice gives the same text as removing them once. |
| Cleaning.DropAllHashtagsExample | python/generate_html.py:609-612 | The corrected removal turns `a ## foo` into `a `. |
| Html.EscapeHtml | python/generate_html.py:391-400 | The escaped text has no `<`, `>`, `"` or `'`, and empty input gives empty output. |
| Html.EscapeIsPerChar | python/generate_html.py:395-400 | The chain of five `replace` calls, `&` first, escapes each character independently. |
| Html.EscapeRoundTrip | python/generate_html.py:391-400 | Unescaping the escaped text gives back the original. |
| Html.DetectLanguage | python/generate_html.py:403-410 | The answer is `zh` or `en`, and `zh` only when the text has CJK characters. |
| Html.DetectLanguageExtremes | python/generate_html.py:403-410 | Text without CJK is `en`, and non-empty all-CJK text is `zh`. |
| Html.CjkNotSpace | python/generate_html.py:408-409 | The CJK count never exceeds the length without spaces, so the ratio is at most 1. |
| Html.EmboldenKeepsNewlines | python/generate_html.py:422 | Replacing `**x**` by `<strong>x</strong>` keeps the number of newlines, and so the line structure. |
| Html.BulletItemNonEmpty | python/generate_html.py:433-437 | The item of a bullet line is non-empty and starts with a non-space character. |
| Html.RenderNested | python/generate_html.py:429-442 | `<ul>` and `</ul>` alternate properly, each `<li>` sits inside a list, and the list is closed when the lines run out. |
| Html.RenderUlThenLi | python/generate_html.py:434-438 | Every `<ul>` is directly followed by an `<li>`. |
| Html.RenderKeepsContent | python/generate_html.py:429-522 | The `<li>` texts are exactly the bullet items, and the `<p>` texts are exactly the styled non-empty non-bullet lines, both in order. |
| Html.AppendLine | python/generate_html.py:429-522 | One loop step appends the blocks for the stripped line and records whether a list is now open. |
| Html.RenderLines | python/generate_html.py:425-526 | The line loop produces the reference rendering `Render`. |
| Html.MarkdownToHtml | python/generate_html.py:413-528 | Empty input gives empty output. Otherwise the output is the newline-join of the blocks rendered from the lines of the emboldened text. |
| Html.BatchNum | python/generate_html.py:946 | Post `i` falls in batch `b` with `5(b-1) <= i < 5b`. |
| Html.TotalBatches | python/generate_html.py:939-951 | No posts give zero batches, and otherwise the batches just cover the posts. |
| Html.BatchFacts | python/generate_html.py:945-951 | Exactly the first five posts are visible, every post's batch lies within the total, and the last post is in the last batch. |
| Html.AssignBatches | python/generate_html.py:945-951 | The loop gives each post its batch number and visibility and returns the total. |
| Generator.AcceptStockFacts | python/generate_html.py:182-207 | A match is kept exactly when its ticker is not reserved and its action is not PASS. A kept pick has the match's ticker and rank. Its action is the canonical form (`StockCanonical`) of the alternative the match spelt: 買入 or buy in any case gives BUY, 賣出 or sell gives SELL, 持有 or hold gives HOLD. |
| Generator.AddStock | python/generate_html.py:197-217 | One match adds its pick only when it is accepted and its ticker is new. |
| Generator.AddStocks | python/generate_html.py:192-217 | The inner loop extends the de-duplicated candidate list by the matches of one pattern. |
| Generator.CollectStocks | python/generate_html.py:190-217 | The pattern loop collects the de-duplicated candidates of all five patterns in order. |
| Generator.ParseStockPicks | python/generate_html.py:150-221 | The parser returns `StockPicksOf`. That is nothing when no section is found, and otherwise the ranked top three of the collected picks. |
| Generator.StockPicksFacts | python/generate_html.py:150-221 | No section gives no picks. Otherwise there is one pick per distinct ticker, up to three, sorted by rank. Each is the first accepted match of its ticker with a non-reserved ticker. No first occurrence left out ranks better, and on a tie the kept pick came first. |
| Generator.StockActions | python/generate_html.py:195-207 | Every returned stock pick's action is BUY, SELL or HOLD. |
| Generator.EnglishKind | python/generate_html.py:325-354 | CALL and PUT pass through `.upper()` and the translation unchanged and are not PASS. |
| Generator.StrikeAndExpiry | python/generate_html.py:327-344 | A non-blank 5th group becomes the stripped expiry, with a captured 4th group as the strike. Without one, a captured 4th group that looks like a date (it holds CJK or four digits) gives strike `?` and the stripped group as the expiry, in every group shape, including the four-group Chinese pattern. Any other captured 4th group is the strike, and the expiry is empty. The strike is `?` when no 4th group was captured, and otherwise `?` or that group's text. The expiry is empty or stripped. |
| Generator.SplitGroups | python/generate_html.py:327-344 | The group-dispatch branches compute `StrikeAndExpiry`. |
| Generator.CleanExpiry | python/generate_html.py:357-364 | A cleaned expiry holds no CJK character. |
| Generator.TidyExpiry | python/generate_html.py:356-364 | The expiry clean-up computes `CleanExpiry`, which holds no CJK character. |
| Generator.PlainExpiryKept | python/generate_html.py:357-364 | An expiry that is already stripped, ASCII-only and free of the removed words is kept as is. |
| Generator.CleanExpiryMonthEnd | python/generate_html.py:357-364 | `YYYY年M月底到期` is cleaned to `Mon D, YYYY`. |
| Generator.CleanExpiryConverts | python/generate_html.py:359-364 | An expiry with CJK left after the word removal is converted by the date normaliser. |
| Generator.AcceptOptionFacts | python/generate_html.py:322-375 | A match is kept exactly when its ticker is not reserved and its type is not PASS. The kept pick has the match's ticker and rank. Its type is the canonical form (`OptionCanonical`) of the alternative spelt: 認購 or call gives CALL, 認沽 or put gives PUT. Its strike is `?` when none was captured. A non-blank 5th group is cleaned into the expiry, and then a captured 4th group is the strike. Without one, a date-like 4th group (CJK or four digits) is cleaned into the expiry and the strike is `?`. The expiry holds no CJK. |
| Generator.FourDigitStrikeIsExpiry | python/generate_html.py:333-338 | A 4th group containing four digits, with no 5th group, is taken as the expiry and the strike becomes `?`. |
| Generator.FourDigitStrikeBecomesExpiry | python/generate_html.py:333-375 | A bare 4-digit strike such as `2026` ends up as the expiry with strike `?`. |
| Generator.AddOption | python/generate_html.py:346-375 | One match adds its pick only when it is accepted and its (ticker, type) is new. |
| Generator.AddOptions | python/generate_html.py:320-375 | The inner loop extends the de-duplicated candidate list by the matches of one pattern. |
| Generator.CollectOptions | python/generate_html.py:319-375 | The pattern loop collects the de-duplicated candidates of all five patterns in order. |
| Generator.ParseOptionsPicks | python/generate_html.py:275-379 | The parser returns `OptionPicksOf`: the ranked top three of the collected picks. |
| Generator.OptionPicksFacts | python/generate_html.py:275-379 | No section gives no picks. Otherwise there is one pick per distinct (ticker, type), up to three, sorted by rank, with non-reserved tickers and CJK-free expiries. Each is a first accepted occurrence. No first occurrence left out ranks better, and on a tie the kept pick came first. |
| Generator.OptionTypesAndStrikes | python/generate_html.py:325-354 | Every returned option's type is CALL or PUT, and its strike is `?` when its match captured none. |
| Generator.Cleaned | python/generate_html.py:584-637 | `clean_section` returns a stripped text. |
| Generator.CleanSection | python/generate_html.py:584-637 | The step-by-step clean-up computes `Cleaned`, which is stripped. |
| Generator.CleanedEmpty | python/generate_html.py:584-637 | An empty section stays empty. |
| Generator.CleanTwiceDiffers | python/generate_html.py:584-637 | With scrubbers that change nothing, `a ## foo` cleans to `a #foo`, and cleaning that again gives `a`: `clean_section` is not idempotent. |
| Generator.SentinelsStripped | python/generate_html.py:540-545 | The three sentinel sentences are stripped. |
| Generator.SplitSections | python/generate_html.py:531-643 | The splitter returns `SplitOf`. |
| Generator.SplitFacts | python/generate_html.py:531-643 | Empty input gives the three sentinels. Every field is non-empty and stripped. Each field is its section cleaned or its sentinel, and a missing section gives the sentinel. |
| Legacy.AcceptStockFacts | generate_html.py:146-168 | A match is kept exactly when its ticker is not reserved, because this version has no action filter. The action is the canonical form (`StockCanonical`) of the alternative spelt: 買入 or buy gives BUY, 賣出 or sell gives SELL, pass gives PASS. So it is BUY, SELL or PASS, and PASS exactly when the match said PASS. |
| Legacy.AddStock | generate_html.py:150-168 | One match adds its pick only when it is accepted and its ticker is new. |
| Legacy.AddStocks | generate_html.py:145-168 | The inner loop extends the de-duplicated candidate list by the matches of one pattern. |
| Legacy.CollectStocks | generate_html.py:143-168 | The pattern loop collects the de-duplicated candidates of all three patterns in order. |
| Legacy.ParseStockPicks | generate_html.py:104-172 | The parser returns `StockPicksOf`: nothing without a section or when the section mentions PASS, 無推薦 or 沒有推薦, and otherwise the ranked top three. |
| Legacy.StockPicksFacts | generate_html.py:104-172 | There are no picks without a section or when the section says PASS. Otherwise there is one pick per distinct ticker, up to three, sorted by rank, each the first accepted match of its ticker. No first occurrence left out ranks better, and on a tie the kept pick came first. |
| Legacy.StockActions | generate_html.py:131-158 | When the section passed the PASS check, every returned action is BUY or SELL. |
| Legacy.Strike | generate_html.py:219 | A captured group 4 is the strike. Otherwise the strike is `?`, so it is never empty, and it is a digit string whenever group 4 captured digits. |
| Legacy.Expiry | generate_html.py:220 | A captured group 5, stripped, is the expiry. It is empty when group 5 was not captured, and never longer than group 5. |
| Legacy.AcceptOptionFacts | generate_html.py:216-241 | A match is kept exactly when its ticker is not reserved. The type is the canonical form (`OptionCanonical`) of the alternative spelt: 認購 or call gives CALL, 認沽 or put gives PUT, pass gives PASS. A captured group 4 is the strike, else `?`. A captured group 5, stripped, is the expiry, else it is empty. |
| Legacy.AddOption | generate_html.py:222-241 | One match adds its pick only when it is accepted and its (ticker, type) is new. |
| Legacy.AddOptions | generate_html.py:214-241 | The inner loop extends the de-duplicated candidate list by the matches of one pattern. |
| Legacy.CollectOptions | generate_html.py:213-241 | The pattern loop collects the de-duplicated candidates of both patterns in order. |
| Legacy.ParseOptionsPicks | generate_html.py:175-245 | The parser returns `OptionPicksOf`: nothing without a section or when it says PASS, and otherwise the ranked top three. |
| Legacy.OptionPicksFacts | generate_html.py:175-245 | There are no picks without a section or when it says PASS. Otherwise there is one pick per distinct (ticker, type), up to three, sorted by rank, with non-reserved tickers and stripped expiries, each a first accepted occurrence. No first occurrence left out ranks better, and on a tie the kept pick came first. |
| Legacy.OptionTypesAndStrikes | generate_html.py:202-230 | When the section passed the PASS check, every returned type is CALL or PUT and every strike is `?` or a digit string. |
| Legacy.FirstTrailer | generate_html.py:384 | Finds the leftmost position where `[（(]?以上.*?粵語.*?[）)]?\.?$` can start on a line. |
| Legacy.CutTrailer | generate_html.py:384 | The trailer substitution leaves a prefix of the line. |
| Legacy.CutTrailerFacts | generate_html.py:384 | The line is kept exactly when no trailer starts in it, and always when it lacks 粵語. Otherwise it is cut at the leftmost trailer. The result has no trailer, and cutting twice equals cutting once. |
| Legacy.DropNote | generate_html.py:385 | A line holding 符合語言要求 becomes empty, and every other line is kept. |
| Legacy.DropTrailersLines | generate_html.py:384-385 | Both MULTILINE substitutions work line by line. Each line is cut and then dropped if it holds the note, and no resulting line has a note or a trailer. |
| Legacy.Cleaned | generate_html.py:374-386 | `clean_section` returns a stripped text. |
| Legacy.CleanSection | generate_html.py:374-386 | The step-by-step clean-up computes `Cleaned`, which is stripped. |
| Legacy.CleanedHasNoNote | generate_html.py:383-386 | A cleaned section never contains 符合語言要求. |
| Legacy.CleanedEmpty | generate_html.py:374-386 | An empty section stays empty. |
| Legacy.SentinelsStripped | generate_html.py:330-335 | The three sentinel sentences are stripped. |
| Legacy.SplitSections | generate_html.py:321-392 | The splitter returns `SplitOf`. |
| Legacy.SplitFacts | generate_html.py:321-392 | Empty input gives the sentinels, and every field is non-empty and stripped. Each field is its cleaned section or its sentinel, a missing section gives the sentinel, and no non-sentinel field holds 符合語言要求. |
| Legacy.MarkdownToHtml | generate_html.py:279-318 | The same bold, list and paragraph rendering as the current version, with paragraphs emitted verbatim (no badge styling). |
| Legacy.VerbatimParagraphs | generate_html.py:309-310 | Every `<p>` text is a non-empty, stripped, non-bullet input line. |

## Left out

- Database access (`get_all_analyses`), the vote database and API, `generate_vote_html`, `generate_post_card_html`, the page template with its CSS and JavaScript, `format_datetime`, `main` and environment variables: these are I/O and presentation around the core. `python/vote_db.py` and `python/vote_api.py` are not part of this model.
- The pick regular expressions themselves (`top_patterns`) are not executed. `re.finditer` is the `matcher` parameter, which yields each pattern's matches in scan order. The model covers what the code does with those matches.
- Generator.StockActions: requires that every match's action is one of the pattern's tokens in some letter case, which the regex guarantees but the model does not derive.
- Generator.OptionTypesAndStrikes: requires that every match's type is one of the pattern's tokens, for the same reason.
- Legacy.StockActions: requires, as well, that the matched action text occurs in the section, which the regex guarantees.
- Legacy.OptionTypesAndStrikes: requires, as well, that the matched type occurs in the section and that a captured strike is digits, as `(\d+)` guarantees.
- Generator.Cleaned: the meta-sentence substitutions of `python/generate_html.py:595-607` and the PASS boilerplate substitutions of lines 614-636 are two opaque text functions (`Scrubbers`). Their dozen mixed English and Chinese patterns are not modelled character by character. `Generator.CleanedEmpty` and the missing-section facts of `Generator.SplitFacts` hold for scrubbers that keep the empty text empty. It models the hashtag steps as written, so it is not idempotent (see Findings). The corrected removal `Cleaning.DropAllHashtags` is stated beside it, not substituted, because the model describes what the program does. Idempotence of the whole clean-up is not claimed even with that correction: the other steps can also change their result on a second pass, for example when removing the title leaves a new line of three dashes.
- Legacy.Cleaned: each step is stated on its own; of the whole clean-up only strippedness, the absence of 符合語言要求 and the empty case are claimed. In particular, "no line of three or more dashes remains" does not hold of the result: the trailer cut of `generate_html.py:384` runs after the separator step, so a line such as `---以上用粵語` is cut to `---`, which survives.
- Html.MarkdownToHtml: the badge styling of `python/generate_html.py:445-518` (BUY/SELL/HOLD, strike, expiry, CALL/PUT spans) is a `style` parameter applied to each paragraph line. Its regexes are not modelled.
- Text.Upper: `.upper()` is modelled for ASCII letters and the characters that `re.IGNORECASE` folds onto them. Other Unicode case mappings (for example `ß` becoming `SS`) are left out.
- The non-ASCII literals of `python/generate_html.py` are stored mis-decoded: its UTF-8 bytes were read as Windows-1252 and saved again. Examples are `è²·å…¥|è³£å‡º|æŒæœ‰` for 買入|賣出|持有 at lines 182-186, `å¹´`/`æœˆ` for 年/月 at lines 239, 251 and 261, and the Chinese section headers. The model uses the intended characters, which the older `generate_html.py` holds correctly. As stored, none of the Chinese headers, action tokens or date markers could match Chinese text, and only the English paths would take effect.
- `\d` and `\w` are modelled as ASCII digits, and ASCII letters, digits, `_` and CJK respectively, not the full Unicode classes.
- Html.DetectLanguage: the float comparison `chinese / total > 0.3` is modelled as the exact rational test `10 * chinese > 3 * total`. It agrees with the binary floating-point test for texts under about 10^15 characters; rounding on longer texts is not modelled.
- The in-place `list.sort` is modelled on values, as the stable insertion sort `Picks.SortByRank`. Python's Timsort is not modelled, but any stable sort by the same key gives the same list.
- The `is_chinese` and `is_cantonese` parameters are unused by the code and are left out.

## Findings

| source | as written | input that shows it | evidently intended | confidence | as-written member | corrected member |
|---|---|---|---|---|---|---|
| python/generate_html.py:609-612 | The hashtag substitutions run once, `#\w+` before `#\s+`, so removing `# ` can create a new hashtag | `a ## foo` cleans to `a #foo`, and cleaning that again gives `a` | Cleaning removes every hashtag, so cleaning twice equals cleaning once | high; not executed | Generator.CleanTwiceDiffers | Cleaning.DropAllHashtags |
