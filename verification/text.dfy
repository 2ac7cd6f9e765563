/** Character classes and string operations of Python's `str` and `re` that the
    report parser relies on: `str.strip`, `str.upper`, `str.replace`,
    `str.split('\n')` / `'\n'.join`, the `\s`, `\d` and `\w` classes, the CJK
    range `[一-鿿]` and the character equivalence used by `re.IGNORECASE`. */
module Text {

  datatype Option<T> = None | Some(value: T)

  // ---------------------------------------------------------------------------
  // Character classes
  // ---------------------------------------------------------------------------

  /** The characters Python's `str.isspace()`, `str.strip()` and the regex
      class `\s` treat as whitespace. */
  predicate IsSpace(c: char) {
    c == ' ' || ('\t' <= c <= '\r') || ('\U{1C}' <= c <= '\U{1F}')
    || c == '\U{85}' || c == '\U{A0}' || c == '\U{1680}'
    || ('\U{2000}' <= c <= '\U{200A}') || c == '\U{2028}' || c == '\U{2029}'
    || c == '\U{202F}' || c == '\U{205F}' || c == '\U{3000}'
  }

  /** The regex class `[一-鿿]` (CJK Unified Ideographs). */
  predicate IsCjk(c: char) {
    '\U{4E00}' <= c <= '\U{9FFF}'
  }

  predicate IsDigit(c: char) {
    '0' <= c <= '9'
  }

  predicate IsAsciiLetter(c: char) {
    ('a' <= c <= 'z') || ('A' <= c <= 'Z')
  }

  /** The regex class `\w`, restricted to ASCII letters and digits, `_` and
      CJK ideographs. */
  predicate IsWordChar(c: char) {
    IsAsciiLetter(c) || IsDigit(c) || c == '_' || IsCjk(c)
  }

  predicate HasCjk(s: string) {
    exists i :: 0 <= i < |s| && IsCjk(s[i])
  }

  // ---------------------------------------------------------------------------
  // Case
  // ---------------------------------------------------------------------------

  /** Two characters match under `re.IGNORECASE` exactly when their folds are
      equal: ASCII letters fold to lower case, and the four non-ASCII letters
      that Python's engine equates with ASCII letters (long s, Kelvin sign,
      dotted and dotless i) fold to that letter. */
  function Fold(c: char): char {
    if 'A' <= c <= 'Z' then (c as int + 32) as char
    else if c == '\U{17F}' then 's'
    else if c == '\U{212A}' then 'k'
    else if c == '\U{130}' || c == '\U{131}' then 'i'
    else c
  }

  /** `str.upper()` on one character, for ASCII letters and for the two
      non-ASCII letters whose upper case is an ASCII letter. */
  function UpperChar(c: char): char {
    if 'a' <= c <= 'z' then (c as int - 32) as char
    else if c == '\U{17F}' then 'S'
    else if c == '\U{131}' then 'I'
    else c
  }

  function Upper(s: string): (r: string)
    ensures |r| == |s|
  {
    seq(|s|, i requires 0 <= i < |s| => UpperChar(s[i]))
  }

  /** Case-insensitive equality of two strings of the same length. */
  predicate EqualsIgnoreCase(a: string, b: string) {
    |a| == |b| && forall i :: 0 <= i < |a| ==> Fold(a[i]) == Fold(b[i])
  }

  /** `pat` occurs at position `i` of `s`, ignoring case. */
  predicate PrefixAtIgnoreCase(s: string, i: nat, pat: string) {
    i + |pat| <= |s| && EqualsIgnoreCase(s[i..i + |pat|], pat)
  }

  /** `re.search(pat, s, re.IGNORECASE)` for a literal pattern. */
  predicate ContainsIgnoreCase(s: string, pat: string) {
    exists i :: 0 <= i <= |s| - |pat| && PrefixAtIgnoreCase(s, i, pat)
  }

  /** `pat` occurs at position `i` of `s`. */
  predicate OccursAt(s: string, i: nat, pat: string) {
    i + |pat| <= |s| && s[i..i + |pat|] == pat
  }

  /** An occurrence in a prefix of `s` is an occurrence in `s`. */
  lemma OccursInPrefix(s: string, n: nat, j: nat, pat: string)
    requires n <= |s| && OccursAt(s[..n], j, pat)
    ensures OccursAt(s, j, pat)
  {
    assert s[..n][j..j + |pat|] == s[j..j + |pat|];
  }

  /** `pat in s`. */
  predicate Contains(s: string, pat: string) {
    exists i: nat :: i <= |s| && OccursAt(s, i, pat)
  }

  /** A token the parser compares against after `.upper()`: upper-case ASCII
      letters other than I and K (whose case-insensitive class contains letters
      that `upper()` does not map back) and CJK ideographs. */
  predicate PlainToken(w: string) {
    forall i :: 0 <= i < |w| ==> (('A' <= w[i] <= 'Z' && w[i] != 'I' && w[i] != 'K') || IsCjk(w[i]))
  }

  /** Whatever spelling the case-insensitive regex accepted for a plain token,
      `upper()` turns it back into that token. */
  lemma UpperOfMatchedToken(t: string, w: string)
    requires PlainToken(w) && EqualsIgnoreCase(t, w)
    ensures Upper(t) == w
  {
    forall i | 0 <= i < |t|
      ensures UpperChar(t[i]) == w[i]
    {
      assert Fold(t[i]) == Fold(w[i]);
    }
  }

  /** `upper()` leaves a plain token as it is. */
  lemma UpperOfPlain(w: string)
    requires PlainToken(w)
    ensures Upper(w) == w
  {
    forall i | 0 <= i < |w|
      ensures UpperChar(w[i]) == w[i]
    {
    }
  }

  /** A case-insensitive occurrence of a spelling of `w` is an occurrence of `w`. */
  lemma ContainsSpelling(s: string, t: string, w: string)
    requires Contains(s, t) && EqualsIgnoreCase(t, w)
    ensures ContainsIgnoreCase(s, w)
  {
    var i: nat :| i <= |s| && OccursAt(s, i, t);
    assert |t| == |w| && s[i..i + |w|] == t;
    assert PrefixAtIgnoreCase(s, i, w);
  }

  /** An occurrence inside a slice of `s` is an occurrence in `s`. */
  lemma ContainsInSlice(s: string, lo: nat, hi: nat, pat: string)
    requires lo <= hi <= |s| && Contains(s[lo..hi], pat)
    ensures Contains(s, pat)
  {
    var i: nat :| i <= |s[lo..hi]| && OccursAt(s[lo..hi], i, pat);
    var t := s[lo..hi];
    forall k | 0 <= k < |pat| ensures s[lo + i..lo + i + |pat|][k] == pat[k] {
      assert t[i..i + |pat|][k] == pat[k];
    }
    assert s[lo + i..lo + i + |pat|] == pat;
    assert OccursAt(s, lo + i, pat);
  }

  /** An occurrence that starts in `a` and ends past it covers the newline
      after `a`. */
  lemma NewlineInside(s: string, a: string, b: string, i: nat, pat: string)
    requires s == a + "\n" + b && i <= |a| < i + |pat| && OccursAt(s, i, pat)
    ensures '\n' in pat
  {
    assert pat[|a| - i] == s[i..i + |pat|][|a| - i] == s[|a|];
  }

  /** An occurrence that ends within `a` is an occurrence in `a`. */
  lemma OccursInJoinLeft(s: string, a: string, b: string, i: nat, pat: string)
    requires s == a + "\n" + b && i + |pat| <= |a| && OccursAt(s, i, pat)
    ensures Contains(a, pat)
  {
    assert s[i..i + |pat|] == a[i..i + |pat|];
    assert OccursAt(a, i, pat);
  }

  /** A non-empty pattern without a newline that occurs in no line does not
      occur in the lines joined by newlines. */
  lemma {:induction false} UnlinesAvoids(ls: seq<string>, pat: string)
    requires pat != [] && '\n' !in pat
    requires forall k :: 0 <= k < |ls| ==> !Contains(ls[k], pat)
    ensures !Contains(Unlines(ls), pat)
  {
    if |ls| > 1 {
      var a, b := ls[0], Unlines(ls[1..]);
      UnlinesAvoids(ls[1..], pat);
      var s := Unlines(ls);
      assert s == a + "\n" + b;
      forall i: nat | i <= |s| && OccursAt(s, i, pat) ensures false {
        if |a| < i {
          assert s[i..i + |pat|] == b[i - |a| - 1..i - |a| - 1 + |pat|];
          assert OccursAt(b, i - |a| - 1, pat);
        } else if |a| < i + |pat| {
          NewlineInside(s, a, b, i, pat);
        } else {
          OccursInJoinLeft(s, a, b, i, pat);
        }
      }
    } else if |ls| == 0 {
      assert forall i: nat :: i <= 0 ==> !OccursAt("", i, pat);
    }
  }

  // ---------------------------------------------------------------------------
  // strip
  // ---------------------------------------------------------------------------

  predicate IsStripped(s: string) {
    s == [] || (!IsSpace(s[0]) && !IsSpace(s[|s| - 1]))
  }

  function TrimStart(s: string): (r: string)
    ensures |r| <= |s| && r == s[|s| - |r|..]
    ensures r == [] || !IsSpace(r[0])
    ensures forall i :: 0 <= i < |s| - |r| ==> IsSpace(s[i])
  {
    if s != [] && IsSpace(s[0]) then TrimStart(s[1..]) else s
  }

  /** Trimming the front of a text whose last character is not whitespace
      leaves a text that starts with a non-whitespace character. */
  lemma TrimStartKeepsLast(s: string)
    requires s != [] && !IsSpace(s[|s| - 1])
    ensures TrimStart(s) != [] && !IsSpace(TrimStart(s)[0])
  {
  }

  function TrimEnd(s: string): (r: string)
    ensures |r| <= |s| && r == s[..|r|]
    ensures r == [] || !IsSpace(r[|r| - 1])
    ensures forall i :: |r| <= i < |s| ==> IsSpace(s[i])
  {
    if s != [] && IsSpace(s[|s| - 1]) then TrimEnd(s[..|s| - 1]) else s
  }

  /** `str.strip()`: the longest middle part of `s` that neither starts nor ends
      with whitespace. */
  function Strip(s: string): (r: string)
    ensures IsStripped(r)
    ensures |r| <= |s|
    ensures r == [] <==> forall i :: 0 <= i < |s| ==> IsSpace(s[i])
  {
    var t := TrimStart(s);
    var r := TrimEnd(t);
    assert r != [] ==> r[0] == t[0];
    r
  }

  /** `strip()` cannot create an occurrence of a pattern. */
  lemma StripAvoids(s: string, pat: string)
    requires !Contains(s, pat)
    ensures !Contains(Strip(s), pat)
  {
    var t := TrimStart(s);
    var lo := |s| - |t|;
    var r := Strip(s);
    assert r == TrimEnd(t) && r == t[..|r|];
    assert r == s[lo..lo + |r|];
    if Contains(r, pat) {
      ContainsInSlice(s, lo, lo + |r|, pat);
    }
  }

  lemma StripStripped(s: string)
    requires IsStripped(s)
    ensures Strip(s) == s
  {
  }

  // ---------------------------------------------------------------------------
  // replace, character removal
  // ---------------------------------------------------------------------------

  /** `s.replace(pat, rep)`: every non-overlapping occurrence, left to right. */
  function ReplaceAll(s: string, pat: string, rep: string): (r: string)
    requires pat != []
    decreases |s|
  {
    if |s| < |pat| then s
    else if s[..|pat|] == pat then rep + ReplaceAll(s[|pat|..], pat, rep)
    else [s[0]] + ReplaceAll(s[1..], pat, rep)
  }

  /** Replacing a pattern whose first character does not occur changes nothing. */
  lemma {:induction false} ReplaceAllAbsent(s: string, pat: string, rep: string)
    requires pat != [] && pat[0] !in s
    ensures ReplaceAll(s, pat, rep) == s
    decreases |s|
  {
    if |s| >= |pat| {
      assert s[0] in s;
      assert s[..|pat|][0] == s[0];
      ReplaceAllAbsent(s[1..], pat, rep);
      assert s == [s[0]] + s[1..];
    }
  }

  /** Replacing creates no character that is neither in the text nor in the
      replacement. */
  lemma {:induction false} ReplaceAllKeeps(s: string, pat: string, rep: string)
    requires pat != []
    ensures forall c :: c in ReplaceAll(s, pat, rep) ==> c in s || c in rep
    decreases |s|
  {
    if |s| >= |pat| {
      if s[..|pat|] == pat {
        ReplaceAllKeeps(s[|pat|..], pat, rep);
        forall c | c in s[|pat|..] ensures c in s {
          var i :| 0 <= i < |s[|pat|..]| && s[|pat|..][i] == c;
          assert s[i + |pat|] == c;
        }
      } else {
        ReplaceAllKeeps(s[1..], pat, rep);
        assert s == [s[0]] + s[1..];
      }
    }
  }

  /** Occurrences are found left to right: a prefix that holds no first
      character of the pattern is kept as it is. */
  lemma {:induction false} ReplaceAllAfter(a: string, b: string, pat: string, rep: string)
    requires pat != [] && pat[0] !in a
    ensures ReplaceAll(a + b, pat, rep) == a + ReplaceAll(b, pat, rep)
    decreases |a|
  {
    if a != [] {
      assert a[0] in a;
      assert (a + b)[1..] == a[1..] + b;
      ReplaceAllAfter(a[1..], b, pat, rep);
      if |a + b| >= |pat| {
        assert (a + b)[..|pat|][0] == a[0];
        assert ReplaceAll(a + b, pat, rep) == [a[0]] + ReplaceAll(a[1..] + b, pat, rep);
        assert [a[0]] + (a[1..] + ReplaceAll(b, pat, rep)) == a + ReplaceAll(b, pat, rep);
      } else {
        assert ReplaceAll(b, pat, rep) == b;
      }
    } else {
      assert a + b == b;
    }
  }

  /** `s.replace(c, rep)` for a one-character pattern. */
  function ReplaceChar(s: string, c: char, rep: string): (r: string)
    ensures c !in rep ==> c !in r
    ensures forall d :: d !in s && d !in rep ==> d !in r
  {
    if s == [] then [] else (if s[0] == c then rep else [s[0]]) + ReplaceChar(s[1..], c, rep)
  }

  /** `re.sub('[...]', '', s)`: drop every character of the class. */
  function RemoveChars(s: string, cls: set<char>): (r: string)
    ensures forall i :: 0 <= i < |r| ==> r[i] !in cls && r[i] in s
  {
    if s == [] then [] else (if s[0] in cls then [] else [s[0]]) + RemoveChars(s[1..], cls)
  }

  /** `re.sub(r'[一-鿿]', '', s)`. */
  function RemoveCjk(s: string): (r: string)
    ensures !HasCjk(r)
    ensures |r| <= |s|
  {
    if s == [] then [] else (if IsCjk(s[0]) then [] else [s[0]]) + RemoveCjk(s[1..])
  }

  /** `strip()` only drops characters. */
  lemma StripKeeps(s: string)
    ensures forall i :: 0 <= i < |Strip(s)| ==> Strip(s)[i] in s
  {
    var t := TrimStart(s);
    var r := TrimEnd(t);
    assert Strip(s) == r;
    forall i | 0 <= i < |r| ensures r[i] in s {
      assert r[i] == t[i] == s[|s| - |t| + i];
    }
  }

  lemma {:induction false} RemoveCharsAppend(a: string, b: string, cls: set<char>)
    ensures RemoveChars(a + b, cls) == RemoveChars(a, cls) + RemoveChars(b, cls)
  {
    if a != [] {
      assert (a + b)[1..] == a[1..] + b;
      RemoveCharsAppend(a[1..], b, cls);
    } else {
      assert a + b == b;
    }
  }

  lemma {:induction false} RemoveCharsNone(s: string, cls: set<char>)
    requires forall i :: 0 <= i < |s| ==> s[i] !in cls
    ensures RemoveChars(s, cls) == s
  {
    if s != [] {
      RemoveCharsNone(s[1..], cls);
    }
  }

  lemma {:induction false} RemoveCjkNone(s: string)
    requires !HasCjk(s)
    ensures RemoveCjk(s) == s
  {
    if s != [] {
      assert !IsCjk(s[0]);
      assert !HasCjk(s[1..]) by {
        forall i | 0 <= i < |s[1..]| ensures !IsCjk(s[1..][i]) {
          assert s[1..][i] == s[i + 1];
        }
      }
      RemoveCjkNone(s[1..]);
    }
  }

  function CountCjk(s: string): (n: nat)
    ensures n <= |s|
    ensures n == 0 <==> !HasCjk(s)
  {
    if s == [] then 0
    else
      var k := CountCjk(s[1..]);
      assert forall i :: 1 <= i < |s| ==> s[1..][i - 1] == s[i];
      (if IsCjk(s[0]) then 1 else 0) + k
  }

  function CountChar(s: string, c: char): (n: nat)
    ensures n <= |s|
  {
    if s == [] then 0 else (if s[0] == c then 1 else 0) + CountChar(s[1..], c)
  }

  lemma {:induction false} CountCharAppend(a: string, b: string, c: char)
    ensures CountChar(a + b, c) == CountChar(a, c) + CountChar(b, c)
  {
    if a != [] {
      assert (a + b)[1..] == a[1..] + b;
      CountCharAppend(a[1..], b, c);
    } else {
      assert a + b == b;
    }
  }

  // ---------------------------------------------------------------------------
  // split('\n') and '\n'.join
  // ---------------------------------------------------------------------------

  /** Index of the first newline at or after `i`, or `|s|`. */
  function LineEnd(s: string, i: nat): (r: nat)
    requires i <= |s|
    ensures i <= r <= |s| && (r < |s| ==> s[r] == '\n')
    ensures forall j :: i <= j < r ==> s[j] != '\n'
    decreases |s| - i
  {
    if i == |s| || s[i] == '\n' then i else LineEnd(s, i + 1)
  }

  /** `s.split('\n')`. */
  function Lines(s: string): (ls: seq<string>)
    ensures |ls| >= 1
    ensures forall k :: 0 <= k < |ls| ==> '\n' !in ls[k]
    decreases |s|
  {
    var e := LineEnd(s, 0);
    if e == |s| then [s] else [s[..e]] + Lines(s[e + 1..])
  }

  /** `'\n'.join(ls)`. */
  function Unlines(ls: seq<string>): string {
    if ls == [] then "" else if |ls| == 1 then ls[0] else ls[0] + "\n" + Unlines(ls[1..])
  }

  lemma {:induction false} UnlinesLines(s: string)
    ensures Unlines(Lines(s)) == s
    decreases |s|
  {
    var e := LineEnd(s, 0);
    if e < |s| {
      UnlinesLines(s[e + 1..]);
      assert s == s[..e] + "\n" + s[e + 1..];
    }
  }

  lemma {:induction false} LinesUnlines(ls: seq<string>)
    requires |ls| >= 1
    requires forall k :: 0 <= k < |ls| ==> '\n' !in ls[k]
    ensures Lines(Unlines(ls)) == ls
  {
    if |ls| > 1 {
      var s := Unlines(ls);
      var rest := Unlines(ls[1..]);
      assert s == ls[0] + "\n" + rest;
      assert s[|ls[0]|] == '\n';
      LineEndAt(s, ls[0]);
      assert s[..|ls[0]|] == ls[0];
      assert s[|ls[0]| + 1..] == rest;
      LinesUnlines(ls[1..]);
    } else {
      LineEndAt(ls[0], ls[0]);
    }
  }

  /** The first line of `s` is `line` when `s` starts with it and it holds no newline. */
  lemma LineEndAt(s: string, line: string)
    requires |line| <= |s| && s[..|line|] == line && '\n' !in line
    requires |line| < |s| ==> s[|line|] == '\n'
    ensures LineEnd(s, 0) == |line|
  {
  }

  /** Apply `f` to every line. */
  function MapLines(f: string -> string, s: string): string {
    var ls := Lines(s);
    Unlines(seq(|ls|, k requires 0 <= k < |ls| => f(ls[k])))
  }

  /** When `f` never introduces a newline, the lines of the result are exactly
      the images of the lines of the input. */
  lemma LinesOfMapLines(f: string -> string, s: string)
    requires forall line :: '\n' !in line ==> '\n' !in f(line)
    ensures Lines(MapLines(f, s)) == seq(|Lines(s)|, k requires 0 <= k < |Lines(s)| => f(Lines(s)[k]))
  {
    var ls := Lines(s);
    var mapped := seq(|ls|, k requires 0 <= k < |ls| => f(ls[k]));
    LinesUnlines(mapped);
  }

  /** A line map that keeps the empty line keeps the empty text. */
  lemma MapLinesEmpty(f: string -> string)
    requires f([]) == []
    ensures MapLines(f, []) == []
  {
    assert LineEnd([], 0) == 0;
    assert Lines([]) == [[]];
    var mapped := seq(1, k requires 0 <= k < 1 => f(Lines([])[k]));
    assert mapped == [[]];
  }

  // ---------------------------------------------------------------------------
  // Decimal numerals
  // ---------------------------------------------------------------------------

  predicate AllDigits(s: string) {
    forall i :: 0 <= i < |s| ==> IsDigit(s[i])
  }

  /** `int(s)` for a string of ASCII digits. */
  function DigitsValue(s: string): nat
    requires AllDigits(s)
  {
    if s == [] then 0 else 10 * DigitsValue(s[..|s| - 1]) + (s[|s| - 1] as int - '0' as int)
  }

  /** `str(n)`. */
  function Decimal(n: nat): (r: string)
    ensures |r| >= 1 && AllDigits(r)
    ensures |r| > 1 ==> r[0] != '0'
  {
    if n < 10 then [(n + '0' as int) as char] else Decimal(n / 10) + [(n % 10 + '0' as int) as char]
  }

  lemma {:induction false} DecimalRoundTrip(n: nat)
    ensures DigitsValue(Decimal(n)) == n
  {
    if n >= 10 {
      DecimalRoundTrip(n / 10);
      var d := Decimal(n);
      assert d[..|d| - 1] == Decimal(n / 10);
    }
  }

  /** `re.search(r'\d{4}', s)`. */
  predicate HasFourDigits(s: string) {
    exists i: nat :: i <= |s| && FourDigitsAt(s, i)
  }

  predicate FourDigitsAt(s: string, i: nat) {
    i + 4 <= |s| && AllDigits(s[i..i + 4])
  }
}
