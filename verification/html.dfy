/** The rendering helpers both versions share, identically: `escape_html`,
    `detect_language`, the bullet-list state machine of
    `simple_markdown_to_html`, and the batch arithmetic of
    `generate_html_page`. */
module Html {
  import opened Text

  // ---------------------------------------------------------------------------
  // escape_html
  // ---------------------------------------------------------------------------

  /** `escape_html`: five chained `str.replace` calls, `&` first. */
  function EscapeHtml(text: string): (r: string)
    ensures text == [] ==> r == []
    ensures '<' !in r && '>' !in r && '"' !in r && '\'' !in r
  {
    if text == [] then []
    else
      ReplaceChar(ReplaceChar(ReplaceChar(ReplaceChar(ReplaceChar(
        text, '&', "&amp;"), '<', "&lt;"), '>', "&gt;"), '"', "&quot;"), '\'', "&#39;")
  }

  /** The entity each character turns into. */
  function EscapeChar(c: char): string {
    if c == '&' then "&amp;"
    else if c == '<' then "&lt;"
    else if c == '>' then "&gt;"
    else if c == '"' then "&quot;"
    else if c == '\'' then "&#39;"
    else [c]
  }

  /** Character-by-character escaping, the reference for `EscapeHtml`. */
  function EscapeEach(text: string): string {
    if text == [] then [] else EscapeChar(text[0]) + EscapeEach(text[1..])
  }

  lemma {:induction false} ReplaceCharAppend(a: string, b: string, c: char, rep: string)
    ensures ReplaceChar(a + b, c, rep) == ReplaceChar(a, c, rep) + ReplaceChar(b, c, rep)
  {
    if a != [] {
      assert (a + b)[1..] == a[1..] + b;
      ReplaceCharAppend(a[1..], b, c, rep);
    } else {
      assert a + b == b;
    }
  }

  /** The chain of replacements on one character. */
  function Chain(t: string): string {
    ReplaceChar(ReplaceChar(ReplaceChar(ReplaceChar(ReplaceChar(
      t, '&', "&amp;"), '<', "&lt;"), '>', "&gt;"), '"', "&quot;"), '\'', "&#39;")
  }

  lemma ChainAppend(a: string, b: string)
    ensures Chain(a + b) == Chain(a) + Chain(b)
  {
    var r1a, r1b := ReplaceChar(a, '&', "&amp;"), ReplaceChar(b, '&', "&amp;");
    ReplaceCharAppend(a, b, '&', "&amp;");
    var r2a, r2b := ReplaceChar(r1a, '<', "&lt;"), ReplaceChar(r1b, '<', "&lt;");
    ReplaceCharAppend(r1a, r1b, '<', "&lt;");
    var r3a, r3b := ReplaceChar(r2a, '>', "&gt;"), ReplaceChar(r2b, '>', "&gt;");
    ReplaceCharAppend(r2a, r2b, '>', "&gt;");
    var r4a, r4b := ReplaceChar(r3a, '"', "&quot;"), ReplaceChar(r3b, '"', "&quot;");
    ReplaceCharAppend(r3a, r3b, '"', "&quot;");
    ReplaceCharAppend(r4a, r4b, '\'', "&#39;");
  }

  lemma {:induction false} ReplaceCharAbsent(s: string, c: char, rep: string)
    requires c !in s
    ensures ReplaceChar(s, c, rep) == s
  {
    if s != [] {
      ReplaceCharAbsent(s[1..], c, rep);
      assert s == [s[0]] + s[1..];
    }
  }

  lemma ChainChar(c: char)
    ensures Chain([c]) == EscapeChar(c)
  {
    var e := EscapeChar(c);
    var r1 := ReplaceChar([c], '&', "&amp;");
    assert [c][0] == c && [c][1..] == [];
    assert r1 == (if c == '&' then "&amp;" else [c]) + ReplaceChar([], '&', "&amp;");
    var r2 := ReplaceChar(r1, '<', "&lt;");
    if c == '<' {
      assert r2 == "&lt;" + ReplaceChar([], '<', "&lt;");
    } else {
      ReplaceCharAbsent(r1, '<', "&lt;");
    }
    var r3 := ReplaceChar(r2, '>', "&gt;");
    if c == '>' {
      assert r3 == "&gt;" + ReplaceChar([], '>', "&gt;");
    } else {
      ReplaceCharAbsent(r2, '>', "&gt;");
    }
    var r4 := ReplaceChar(r3, '"', "&quot;");
    if c == '"' {
      assert r4 == "&quot;" + ReplaceChar([], '"', "&quot;");
    } else {
      ReplaceCharAbsent(r3, '"', "&quot;");
    }
    if c == '\'' {
      assert ReplaceChar(r4, '\'', "&#39;") == "&#39;" + ReplaceChar([], '\'', "&#39;");
    } else {
      ReplaceCharAbsent(r4, '\'', "&#39;");
    }
  }

  /** The chained replacements escape each character on its own: `&` goes
      first, so no entity produced later is escaped again. */
  lemma {:induction false} EscapeIsPerChar(text: string)
    ensures EscapeHtml(text) == EscapeEach(text)
  {
    if text != [] {
      assert text == [text[0]] + text[1..];
      ChainAppend([text[0]], text[1..]);
      ChainChar(text[0]);
      EscapeIsPerChar(text[1..]);
    }
  }

  /** Decoding the five entities. */
  function Unescape(s: string): string
    decreases |s|
  {
    if s == [] then []
    else if |s| >= 5 && s[..5] == "&amp;" then "&" + Unescape(s[5..])
    else if |s| >= 4 && s[..4] == "&lt;" then "<" + Unescape(s[4..])
    else if |s| >= 4 && s[..4] == "&gt;" then ">" + Unescape(s[4..])
    else if |s| >= 6 && s[..6] == "&quot;" then "\"" + Unescape(s[6..])
    else if |s| >= 5 && s[..5] == "&#39;" then "'" + Unescape(s[5..])
    else [s[0]] + Unescape(s[1..])
  }

  /** Decoding an entity at the front of the text. */
  lemma UnescapeEntity(ent: string, c: char, rest: string)
    requires (ent, c) in {("&amp;", '&'), ("&lt;", '<'), ("&gt;", '>'), ("&quot;", '"'), ("&#39;", '\'')}
    ensures Unescape(ent + rest) == [c] + Unescape(rest)
  {
    var e := ent + rest;
    assert e[..|ent|] == ent && e[|ent|..] == rest;
    assert e[0] == '&' && e[1] == ent[1] && e[2] == ent[2] && e[3] == ent[3];
  }

  /** Decoding a character that starts no entity. */
  lemma UnescapePlain(c: char, rest: string)
    requires c != '&'
    ensures Unescape([c] + rest) == [c] + Unescape(rest)
  {
    var e := [c] + rest;
    assert e[0] == c && e[1..] == rest;
  }

  lemma UnescapeChar(c: char, rest: string)
    ensures Unescape(EscapeChar(c) + rest) == [c] + Unescape(rest)
  {
    if c == '&' {
      UnescapeEntity("&amp;", c, rest);
    } else if c == '<' {
      UnescapeEntity("&lt;", c, rest);
    } else if c == '>' {
      UnescapeEntity("&gt;", c, rest);
    } else if c == '"' {
      UnescapeEntity("&quot;", c, rest);
    } else if c == '\'' {
      UnescapeEntity("&#39;", c, rest);
    } else {
      UnescapePlain(c, rest);
    }
  }

  /** Escaping loses nothing: decoding the entities gives the text back. */
  lemma {:induction false} EscapeRoundTrip(text: string)
    ensures Unescape(EscapeHtml(text)) == text
  {
    EscapeIsPerChar(text);
    EscapeEachRoundTrip(text);
  }

  lemma {:induction false} EscapeEachRoundTrip(text: string)
    ensures Unescape(EscapeEach(text)) == text
  {
    if text != [] {
      UnescapeChar(text[0], EscapeEach(text[1..]));
      EscapeEachRoundTrip(text[1..]);
      assert text == [text[0]] + text[1..];
    }
  }

  // ---------------------------------------------------------------------------
  // detect_language
  // ---------------------------------------------------------------------------

  /** `detect_language`: "zh" when more than 30% of the characters other than
      spaces are in U+4E00..U+9FFF. The float comparison `c / t > 0.3` is
      taken exactly, as `10 * c > 3 * t`. */
  function DetectLanguage(text: string): (r: string)
    ensures r == "zh" || r == "en"
    ensures r == "zh" ==> HasCjk(text)
  {
    if text == [] then "en"
    else
      var cjk := CountCjk(text);
      var total := |text| - CountChar(text, ' ');
      if total > 0 && 10 * cjk > 3 * total then "zh" else "en"
  }

  lemma {:induction false} CjkNotSpace(text: string)
    ensures CountCjk(text) + CountChar(text, ' ') <= |text|
  {
    if text != [] {
      CjkNotSpace(text[1..]);
    }
  }

  /** Text made only of CJK characters is Chinese; text with none is not. */
  lemma DetectLanguageExtremes(text: string)
    ensures !HasCjk(text) ==> DetectLanguage(text) == "en"
    ensures text != [] && (forall i :: 0 <= i < |text| ==> IsCjk(text[i])) ==> DetectLanguage(text) == "zh"
  {
    if text != [] && forall i :: 0 <= i < |text| ==> IsCjk(text[i]) {
      AllCjkCounts(text);
    }
  }

  lemma {:induction false} AllCjkCounts(text: string)
    requires forall i :: 0 <= i < |text| ==> IsCjk(text[i])
    ensures CountCjk(text) == |text| && CountChar(text, ' ') == 0
  {
    if text != [] {
      assert forall i :: 0 <= i < |text[1..]| ==> text[1..][i] == text[i + 1];
      AllCjkCounts(text[1..]);
    }
  }

  // ---------------------------------------------------------------------------
  // simple_markdown_to_html
  // ---------------------------------------------------------------------------

  /** The index of the first `*` at or after `k`, or `|s|`. */
  function NextStar(s: string, k: nat): (r: nat)
    requires k <= |s|
    ensures k <= r <= |s| && (r < |s| ==> s[r] == '*')
    ensures forall j :: k <= j < r ==> s[j] != '*'
    decreases |s| - k
  {
    if k == |s| || s[k] == '*' then k else NextStar(s, k + 1)
  }

  /** Where `\*\*([^*]+)\*\*` matches at `i`: the index of the closing `**`. */
  function StrongEnd(s: string, i: nat): (r: Option<nat>)
    requires i <= |s|
    ensures r.Some? ==> i + 2 < r.value && r.value + 2 <= |s|
  {
    if i + 2 <= |s| && s[i] == '*' && s[i + 1] == '*' then
      var j := NextStar(s, i + 2);
      if j > i + 2 && j + 1 < |s| && s[j + 1] == '*' then Some(j) else None
    else None
  }

  /** `<strong>\1</strong>`. */
  function Strong(t: string): string {
    "<strong>" + t + "</strong>"
  }

  /** `re.sub(r'\*\*([^*]+)\*\*', r'<strong>\1</strong>', s[i..])`. */
  function Embolden(s: string, i: nat): string
    requires i <= |s|
    decreases |s| - i
  {
    if i == |s| then []
    else
      match StrongEnd(s, i)
      case Some(j) => Strong(s[i + 2..j]) + Embolden(s, j + 2)
      case None => [s[i]] + Embolden(s, i + 1)
  }

  lemma CountChar4(a: string, b: string, c: string, d: string, x: char)
    ensures CountChar(a + b + c + d, x) == CountChar(a, x) + CountChar(b, x) + CountChar(c, x) + CountChar(d, x)
  {
    CountCharAppend(a + b + c, d, x);
    CountCharAppend(a + b, c, x);
    CountCharAppend(a, b, x);
  }

  /** The text around a bold match: `**`, the group, `**`, the rest. */
  lemma BoldPieces(s: string, i: nat, j: nat)
    requires i <= |s| && StrongEnd(s, i) == Some(j)
    ensures s[i..] == "**" + s[i + 2..j] + "**" + s[j + 2..]
  {
    assert s[i..i + 2] == "**";
    assert s[j..j + 2] == "**";
    assert s[i..] == s[i..i + 2] + s[i + 2..j] + s[j..j + 2] + s[j + 2..];
  }

  lemma StrongCount(t: string)
    ensures CountChar(Strong(t), '\n') == CountChar(t, '\n')
  {
    MarkupHasNoNewline();
    CountCharAppend("<strong>" + t, "</strong>", '\n');
    CountCharAppend("<strong>", t, '\n');
  }

  lemma EmboldenSome(s: string, i: nat, j: nat)
    requires i <= |s| && StrongEnd(s, i) == Some(j)
    ensures Embolden(s, i) == Strong(s[i + 2..j]) + Embolden(s, j + 2)
  {
  }

  lemma OutCount(inner: string, outRest: string)
    ensures CountChar(Strong(inner) + outRest, '\n') == CountChar(inner, '\n') + CountChar(outRest, '\n')
  {
    StrongCount(inner);
    CountCharAppend(Strong(inner), outRest, '\n');
  }

  lemma SrcCount(inner: string, srcRest: string)
    ensures CountChar("**" + inner + "**" + srcRest, '\n') == CountChar(inner, '\n') + CountChar(srcRest, '\n')
  {
    MarkupHasNoNewline();
    CountChar4("**", inner, "**", srcRest, '\n');
  }

  lemma BoldStep(out: string, src: string, inner: string, outRest: string, srcRest: string)
    requires out == Strong(inner) + outRest && src == "**" + inner + "**" + srcRest
    requires CountChar(outRest, '\n') == CountChar(srcRest, '\n')
    ensures CountChar(out, '\n') == CountChar(src, '\n')
  {
    OutCount(inner, outRest);
    SrcCount(inner, srcRest);
  }

  lemma MarkupHasNoNewline()
    ensures CountChar("<strong>", '\n') == 0 && CountChar("</strong>", '\n') == 0 && CountChar("**", '\n') == 0
  {
  }

  lemma PlainStep(s: string, i: nat)
    requires i < |s| && StrongEnd(s, i).None?
    requires CountChar(Embolden(s, i + 1), '\n') == CountChar(s[i + 1..], '\n')
    ensures CountChar(Embolden(s, i), '\n') == CountChar(s[i..], '\n')
  {
    assert Embolden(s, i) == [s[i]] + Embolden(s, i + 1);
    assert s[i..] == [s[i]] + s[i + 1..];
    CountCharAppend([s[i]], s[i + 1..], '\n');
    CountCharAppend([s[i]], Embolden(s, i + 1), '\n');
  }

  lemma BoldCase(s: string, i: nat, j: nat)
    requires i <= |s| && StrongEnd(s, i) == Some(j)
    requires CountChar(Embolden(s, j + 2), '\n') == CountChar(s[j + 2..], '\n')
    ensures CountChar(Embolden(s, i), '\n') == CountChar(s[i..], '\n')
  {
    EmboldenSome(s, i, j);
    BoldPieces(s, i, j);
    BoldStep(Embolden(s, i), s[i..], s[i + 2..j], Embolden(s, j + 2), s[j + 2..]);
  }

  /** Bolding neither adds nor removes a newline, so it keeps the lines the
      list state machine then walks through. */
  lemma {:induction false} EmboldenKeepsNewlines(s: string, i: nat)
    requires i <= |s|
    ensures CountChar(Embolden(s, i), '\n') == CountChar(s[i..], '\n')
    decreases |s| - i
  {
    if i < |s| {
      var m := StrongEnd(s, i);
      if m.Some? {
        EmboldenKeepsNewlines(s, m.value + 2);
        BoldCase(s, i, m.value);
      } else {
        EmboldenKeepsNewlines(s, i + 1);
        PlainStep(s, i);
      }
    }
  }

  /** `re.match(r'^[-*]\s+', stripped)`. */
  predicate IsBullet(stripped: string) {
    |stripped| >= 2 && (stripped[0] == '-' || stripped[0] == '*') && IsSpace(stripped[1])
  }

  /** `re.sub(r'^[-*]\s+', '', stripped)`: the marker and the whitespace run
      after it removed. */
  function BulletItem(stripped: string): (r: string)
    requires IsBullet(stripped)
  {
    TrimStart(stripped[1..])
  }

  /** A bullet line is never empty once its marker is removed: a stripped
      line ends with a character that is not whitespace. */
  lemma BulletItemNonEmpty(line: string)
    requires IsBullet(Strip(line))
    ensures BulletItem(Strip(line)) != [] && !IsSpace(BulletItem(Strip(line))[0])
  {
    var st := Strip(line);
    assert st[1..][|st| - 2] == st[|st| - 1];
    TrimStartKeepsLast(st[1..]);
  }

  /** One entry of `html_lines`. */
  datatype Block = Ul | CloseUl | Li(item: string) | P(text: string) | Br

  function Tag(b: Block): string {
    match b
    case Ul => "<ul>"
    case CloseUl => "</ul>"
    case Li(t) => "<li>" + t + "</li>"
    case P(t) => "<p>" + t + "</p>"
    case Br => "<br>"
  }

  function Tags(bs: seq<Block>): seq<string> {
    seq(|bs|, k requires 0 <= k < |bs| => Tag(bs[k]))
  }

  /** What one stripped line appends to `html_lines`, given whether a list is
      open and whether `html_lines` already holds something; `style` is the
      inline badge styling applied to paragraph text. */
  function Head(st: string, inList: bool, started: bool, style: string -> string): seq<Block> {
    if IsBullet(st) then
      (if inList then [] else [Ul]) + [Li(BulletItem(st))]
    else
      (if inList then [CloseUl] else [])
      + (if st != [] then [P(style(st))] else if started || inList then [Br] else [])
  }

  /** What the loop appends for the remaining `lines`, and the `</ul>` after
      it when the list is still open. */
  function Render(lines: seq<string>, inList: bool, started: bool, style: string -> string): seq<Block> {
    if lines == [] then (if inList then [CloseUl] else [])
    else
      var st := Strip(lines[0]);
      var h := Head(st, inList, started, style);
      h + Render(lines[1..], IsBullet(st), started || h != [], style)
  }

  /** Well-nested output: every `<ul>` is closed, list items appear only
      inside a list, paragraphs and breaks only outside one. `open` says
      whether a list is open before `bs` and `mid` whether one is after it;
      `Nested(bs, open, false)` is a complete, well-nested sequence. */
  predicate Nested(bs: seq<Block>, open: bool, mid: bool) {
    if bs == [] then open == mid
    else
      match bs[0]
      case Ul => !open && Nested(bs[1..], true, mid)
      case CloseUl => open && Nested(bs[1..], false, mid)
      case Li(_) => open && Nested(bs[1..], true, mid)
      case P(_) => !open && Nested(bs[1..], false, mid)
      case Br => !open && Nested(bs[1..], false, mid)
  }

  lemma {:induction false} NestedAppend(a: seq<Block>, b: seq<Block>, open: bool, mid: bool, close: bool)
    requires Nested(a, open, mid) && Nested(b, mid, close)
    ensures Nested(a + b, open, close)
  {
    if a != [] {
      assert (a + b)[0] == a[0] && (a + b)[1..] == a[1..] + b;
      var next := match a[0] case Ul => true case CloseUl => false case Li(_) => open case P(_) => false case Br => false;
      NestedAppend(a[1..], b, next, mid, close);
    } else {
      assert a + b == b;
    }
  }

  lemma HeadNested(st: string, inList: bool, started: bool, style: string -> string)
    ensures Nested(Head(st, inList, started, style), inList, IsBullet(st))
  {
    var h := Head(st, inList, started, style);
    if IsBullet(st) {
      if !inList { assert h[1..] == [Li(BulletItem(st))]; }
    } else if inList && h != [CloseUl] {
      assert h[1..] == [h[1]];
    }
  }

  /** The state machine never leaves a list open and never puts a paragraph
      or a break inside one. */
  lemma {:induction false} RenderNested(lines: seq<string>, inList: bool, started: bool, style: string -> string)
    ensures Nested(Render(lines, inList, started, style), inList, false)
  {
    if lines != [] {
      var st := Strip(lines[0]);
      var h := Head(st, inList, started, style);
      RenderNested(lines[1..], IsBullet(st), started || h != [], style);
      HeadNested(st, inList, started, style);
      NestedAppend(h, Render(lines[1..], IsBullet(st), started || h != [], style), inList, IsBullet(st), false);
    } else if inList {
      assert [CloseUl][1..] == [];
    }
  }

  /** Every `<ul>` is immediately followed by a list item. */
  predicate UlThenLi(bs: seq<Block>) {
    forall i :: 0 <= i < |bs| && bs[i] == Ul ==> i + 1 < |bs| && bs[i + 1].Li?
  }

  lemma UlThenLiAppend(a: seq<Block>, b: seq<Block>)
    requires UlThenLi(a) && UlThenLi(b)
    ensures UlThenLi(a + b)
  {
    forall i | 0 <= i < |a + b| && (a + b)[i] == Ul ensures i + 1 < |a + b| && (a + b)[i + 1].Li? {
      if i >= |a| {
        assert (a + b)[i] == b[i - |a|];
        assert (a + b)[i + 1] == b[i + 1 - |a|];
      } else {
        assert a[i] == Ul;
      }
    }
  }

  lemma HeadUlThenLi(st: string, inList: bool, started: bool, style: string -> string)
    ensures UlThenLi(Head(st, inList, started, style))
  {
  }

  lemma {:induction false} RenderUlThenLi(lines: seq<string>, inList: bool, started: bool, style: string -> string)
    ensures UlThenLi(Render(lines, inList, started, style))
  {
    if lines != [] {
      var st := Strip(lines[0]);
      var h := Head(st, inList, started, style);
      RenderUlThenLi(lines[1..], IsBullet(st), started || h != [], style);
      HeadUlThenLi(st, inList, started, style);
      UlThenLiAppend(h, Render(lines[1..], IsBullet(st), started || h != [], style));
    }
  }

  /** The list items in order: one per bullet line, its marker removed. */
  function Items(lines: seq<string>): seq<string> {
    if lines == [] then []
    else
      var st := Strip(lines[0]);
      (if IsBullet(st) then [BulletItem(st)] else []) + Items(lines[1..])
  }

  /** The paragraphs in order: one per non-empty line that is not a bullet. */
  function Paragraphs(lines: seq<string>, style: string -> string): seq<string> {
    if lines == [] then []
    else
      var st := Strip(lines[0]);
      (if !IsBullet(st) && st != [] then [style(st)] else []) + Paragraphs(lines[1..], style)
  }

  function LiTexts(bs: seq<Block>): seq<string> {
    if bs == [] then [] else (if bs[0].Li? then [bs[0].item] else []) + LiTexts(bs[1..])
  }

  function PTexts(bs: seq<Block>): seq<string> {
    if bs == [] then [] else (if bs[0].P? then [bs[0].text] else []) + PTexts(bs[1..])
  }

  lemma {:induction false} TextsAppend(a: seq<Block>, b: seq<Block>)
    ensures LiTexts(a + b) == LiTexts(a) + LiTexts(b)
    ensures PTexts(a + b) == PTexts(a) + PTexts(b)
  {
    if a != [] {
      assert (a + b)[0] == a[0] && (a + b)[1..] == a[1..] + b;
      TextsAppend(a[1..], b);
    } else {
      assert a + b == b;
    }
  }

  lemma HeadTexts(st: string, inList: bool, started: bool, style: string -> string)
    ensures LiTexts(Head(st, inList, started, style)) == if IsBullet(st) then [BulletItem(st)] else []
    ensures PTexts(Head(st, inList, started, style)) == if !IsBullet(st) && st != [] then [style(st)] else []
  {
    var h := Head(st, inList, started, style);
    if IsBullet(st) {
      if !inList { TextsAppend([Ul], [Li(BulletItem(st))]); }
    } else {
      var close: seq<Block> := if inList then [CloseUl] else [];
      var body: seq<Block> := if st != [] then [P(style(st))] else if started || inList then [Br] else [];
      TextsAppend(close, body);
    }
  }

  /** No line's content is lost or reordered: the list items are exactly the
      bullet lines, the paragraphs exactly the other non-empty lines. */
  lemma {:induction false} RenderKeepsContent(lines: seq<string>, inList: bool, started: bool, style: string -> string)
    ensures LiTexts(Render(lines, inList, started, style)) == Items(lines)
    ensures PTexts(Render(lines, inList, started, style)) == Paragraphs(lines, style)
  {
    if lines != [] {
      var st := Strip(lines[0]);
      var h := Head(st, inList, started, style);
      RenderKeepsContent(lines[1..], IsBullet(st), started || h != [], style);
      TextsAppend(h, Render(lines[1..], IsBullet(st), started || h != [], style));
      HeadTexts(st, inList, started, style);
    }
  }

  /** `simple_markdown_to_html`: bold first, then the line loop; `style`
      stands for the inline styling of paragraph text. */
  method MarkdownToHtml(text: string, style: string -> string) returns (html: string)
    ensures text == [] ==> html == []
    ensures text != [] ==> html == Unlines(Tags(Render(Lines(Embolden(text, 0)), false, false, style)))
  {
    if text == [] {
      return [];
    }
    var blocks := RenderLines(Lines(Embolden(text, 0)), style);
    html := Unlines(Tags(blocks));
  }

  /** The loop over the lines with its `in_list` flag, and the closing
      `</ul>` after it. */
  method RenderLines(lines: seq<string>, style: string -> string) returns (blocks: seq<Block>)
    ensures blocks == Render(lines, false, false, style)
  {
    blocks := [];
    var inList := false;
    var k := 0;
    assert lines[k..] == lines;
    while k < |lines|
      invariant 0 <= k <= |lines|
      invariant blocks + Render(lines[k..], inList, blocks != [], style) == Render(lines, false, false, style)
    {
      var stripped := Strip(lines[k]);
      ghost var before, wasOpen := blocks, inList;
      blocks, inList := AppendLine(blocks, inList, stripped, style);
      assert lines[k..][0] == lines[k] && lines[k..][1..] == lines[k + 1..];
      RenderStep(lines[k..], lines[k + 1..], before, blocks, wasOpen, inList, style);
      k := k + 1;
    }
    assert lines[k..] == [];
    assert Render([], inList, blocks != [], style) == if inList then [CloseUl] else [];
    if inList {
      blocks := blocks + [CloseUl];
    } else {
      assert blocks + [] == blocks;
    }
  }

  /** The body of the loop for one stripped line: open the list before the
      first bullet, close it before the first other line, emit the item, the
      paragraph or (after something was emitted) a break. */
  method AppendLine(blocks: seq<Block>, inList: bool, stripped: string, style: string -> string)
    returns (blocks': seq<Block>, inList': bool)
    ensures blocks' == blocks + Head(stripped, inList, blocks != [], style)
    ensures inList' == IsBullet(stripped)
  {
    blocks', inList' := blocks, inList;
    if IsBullet(stripped) {
      if !inList' {
        blocks' := blocks' + [Ul];
        inList' := true;
      }
      blocks' := blocks' + [Li(BulletItem(stripped))];
    } else {
      if inList' {
        blocks' := blocks' + [CloseUl];
        inList' := false;
      }
      if stripped != [] {
        blocks' := blocks' + [P(style(stripped))];
      } else if blocks' != [] {
        blocks' := blocks' + [Br];
      }
    }
  }

  /** One turn of the loop appends the line's `Head` and leaves `in_list` set
      exactly when the line was a bullet. */
  lemma RenderStep(cur: seq<string>, next: seq<string>, before: seq<Block>, after: seq<Block>,
                   wasOpen: bool, nowOpen: bool, style: string -> string)
    requires cur != [] && next == cur[1..]
    requires after == before + Head(Strip(cur[0]), wasOpen, before != [], style)
    requires nowOpen == IsBullet(Strip(cur[0]))
    ensures before + Render(cur, wasOpen, before != [], style)
         == after + Render(next, nowOpen, after != [], style)
  {
    var h := Head(Strip(cur[0]), wasOpen, before != [], style);
    RenderCons(cur, wasOpen, before != [], style);
    var r := Render(next, nowOpen, after != [], style);
    assert (before != [] || h != []) == (after != []);
    Associate(before, h, r);
  }

  lemma Associate(a: seq<Block>, b: seq<Block>, c: seq<Block>)
    ensures a + (b + c) == (a + b) + c
  {
  }

  lemma RenderCons(lines: seq<string>, inList: bool, started: bool, style: string -> string)
    requires lines != []
    ensures var h := Head(Strip(lines[0]), inList, started, style);
      Render(lines, inList, started, style) == h + Render(lines[1..], IsBullet(Strip(lines[0])), started || h != [], style)
  {
  }

  // ---------------------------------------------------------------------------
  // Batches in generate_html_page
  // ---------------------------------------------------------------------------

  const PostsPerBatch: nat := 5
  const InitialVisibleBatches: nat := 1

  /** `(i // POSTS_PER_BATCH) + 1`: the 1-based batch of post `i`. */
  function BatchNum(i: nat): (b: nat)
    ensures b >= 1 && PostsPerBatch * (b - 1) <= i < PostsPerBatch * b
  {
    i / PostsPerBatch + 1
  }

  /** `batch_num <= INITIAL_VISIBLE_BATCHES`. */
  predicate IsVisible(i: nat) {
    BatchNum(i) <= InitialVisibleBatches
  }

  /** `total_batches`: 0 without posts, else `((n - 1) // POSTS_PER_BATCH) + 1`. */
  function TotalBatches(n: nat): (t: nat)
    ensures n == 0 <==> t == 0
    ensures n > 0 ==> PostsPerBatch * (t - 1) < n <= PostsPerBatch * t
  {
    if n == 0 then 0 else (n - 1) / PostsPerBatch + 1
  }

  /** Exactly the first five posts are visible, every post's batch is one of
      the batches counted, and the last post is in the last batch. */
  lemma BatchFacts(n: nat)
    ensures forall i: nat :: IsVisible(i) <==> i < PostsPerBatch * InitialVisibleBatches
    ensures forall i: nat :: i < n ==> 1 <= BatchNum(i) <= TotalBatches(n)
    ensures n > 0 ==> BatchNum(n - 1) == TotalBatches(n)
  {
  }

  /** The loop over posts: the batch number and visibility passed to each
      card. */
  method AssignBatches(n: nat) returns (cards: seq<(nat, bool)>, total: nat)
    ensures |cards| == n
    ensures forall i :: 0 <= i < n ==> cards[i] == (BatchNum(i), IsVisible(i))
    ensures total == TotalBatches(n)
  {
    if n == 0 {
      return [], 0;
    }
    cards := [];
    var i := 0;
    while i < n
      invariant 0 <= i <= n && |cards| == i
      invariant forall j :: 0 <= j < i ==> cards[j] == (BatchNum(j), IsVisible(j))
    {
      var batch := i / PostsPerBatch + 1;
      cards := cards + [(batch, batch <= InitialVisibleBatches)];
      i := i + 1;
    }
    total := (n - 1) / PostsPerBatch + 1;
  }
}
