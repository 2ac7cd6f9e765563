/** `convert_chinese_date_to_english`: the expiry normaliser of the current
    parser. It removes 到期 ("expires"), strips, and then tries three
    searches in order, each only accepted when its month is 1..12:

      (\d{4})年(\d{1,2})月底            ->  "Mon D, YYYY" (D = last day of the month)
      (\d{4})年(\d{1,2})月(?!底)        ->  "Mon YYYY"
      (\d{4})年(\d{1,2})月(\d{1,2})日   ->  "Mon DD, YYYY"

    and otherwise returns the cleaned string. */
module Dates {
  import opened Text

  const MonthNames: seq<string> :=
    ["Jan", "Feb", "Mar", "Apr", "May", "Jun", "Jul", "Aug", "Sep", "Oct", "Nov", "Dec"]

  /** The Gregorian rule used by `calendar.monthrange`. */
  predicate IsLeap(y: nat) {
    y % 4 == 0 && (y % 100 != 0 || y % 400 == 0)
  }

  /** `monthrange(y, m)[1]`, the number of days in month `m` of year `y`. */
  function DaysInMonth(y: nat, m: nat): (d: nat)
    requires 1 <= m <= 12
    ensures 28 <= d <= 31
  {
    if m == 2 then (if IsLeap(y) then 29 else 28)
    else if m == 4 || m == 6 || m == 9 || m == 11 then 30
    else 31
  }

  /** Days in the first `n` months of year `y`. */
  function DaysBefore(y: nat, n: nat): nat
    requires n <= 12
  {
    if n == 0 then 0 else DaysBefore(y, n - 1) + DaysInMonth(y, n)
  }

  /** The month lengths add up to the length of the Gregorian year; February
      is the only month whose length depends on the year. */
  lemma YearLength(y: nat)
    ensures DaysBefore(y, 12) == if IsLeap(y) then 366 else 365
    ensures forall m :: 1 <= m <= 12 && m != 2 ==> DaysInMonth(y, m) == DaysInMonth(0, m)
    ensures DaysInMonth(y, 2) == 29 <==> IsLeap(y)
  {
    var feb := DaysInMonth(y, 2);
    assert DaysBefore(y, 1) == 31;
    assert DaysBefore(y, 2) == 31 + feb;
    assert DaysBefore(y, 3) == 62 + feb;
    assert DaysBefore(y, 4) == 92 + feb;
    assert DaysBefore(y, 5) == 123 + feb;
    assert DaysBefore(y, 6) == 153 + feb;
    assert DaysBefore(y, 7) == 184 + feb;
    assert DaysBefore(y, 8) == 215 + feb;
    assert DaysBefore(y, 9) == 245 + feb;
    assert DaysBefore(y, 10) == 276 + feb;
    assert DaysBefore(y, 11) == 306 + feb;
  }

  // ---------------------------------------------------------------------------
  // The three searches
  // ---------------------------------------------------------------------------

  /** Where `(\d{4})年(\d{1,2})月` matches at `i`: the index of 月. The month
      group is greedy, so two digits are tried before one. */
  function MonthMarkAt(s: string, i: nat): (r: Option<nat>)
    ensures r.Some? ==> (r.value == i + 6 || r.value == i + 7) && r.value < |s|
    ensures r.Some? ==> AllDigits(s[i..i + 4]) && s[i + 4] == '年'
                        && AllDigits(s[i + 5..r.value]) && s[r.value] == '月'
  {
    if i + 7 <= |s| && AllDigits(s[i..i + 4]) && s[i + 4] == '年' && IsDigit(s[i + 5]) then
      if i + 8 <= |s| && IsDigit(s[i + 6]) && s[i + 7] == '月' then Some(i + 7)
      else if s[i + 6] == '月' then Some(i + 6)
      else None
    else None
  }

  /** Where `月(\d{1,2})日` matches with 月 at `m`: the index of 日. */
  function DayMarkAt(s: string, m: nat): (r: Option<nat>)
    ensures r.Some? ==> (r.value == m + 2 || r.value == m + 3) && r.value < |s|
    ensures r.Some? ==> AllDigits(s[m + 1..r.value]) && s[r.value] == '日'
  {
    if m + 4 <= |s| && IsDigit(s[m + 1]) && IsDigit(s[m + 2]) && s[m + 3] == '日' then Some(m + 3)
    else if m + 3 <= |s| && IsDigit(s[m + 1]) && s[m + 2] == '日' then Some(m + 2)
    else None
  }

  /** The three shapes: `月底`, `月(?!底)` and `月DD日`. */
  datatype DateForm = MonthEnd | MonthOnly | DayOf

  predicate FormAt(s: string, i: nat, f: DateForm) {
    match MonthMarkAt(s, i)
    case None => false
    case Some(m) =>
      match f
      case MonthEnd => m + 1 < |s| && s[m + 1] == '底'
      case MonthOnly => !(m + 1 < |s| && s[m + 1] == '底')
      case DayOf => DayMarkAt(s, m).Some?
  }

  /** `re.search`: the leftmost start from `i` on where the shape matches. */
  function Leftmost(s: string, f: DateForm, i: nat): (r: Option<nat>)
    requires i <= |s|
    ensures r.Some? ==> i <= r.value < |s| && FormAt(s, r.value, f)
    ensures r.Some? ==> forall k :: i <= k < r.value ==> !FormAt(s, k, f)
    ensures r.None? ==> forall k :: i <= k <= |s| ==> !FormAt(s, k, f)
    decreases |s| - i
  {
    if FormAt(s, i, f) then Some(i)
    else if i == |s| then None
    else Leftmost(s, f, i + 1)
  }

  /** `int(match.group(2))`. */
  function MonthAt(s: string, i: nat): (m: nat)
    requires MonthMarkAt(s, i).Some?
  {
    DigitsValue(s[i + 5..MonthMarkAt(s, i).value])
  }

  /** `match.group(1)`, kept as written. */
  function YearAt(s: string, i: nat): (y: string)
    requires MonthMarkAt(s, i).Some?
    ensures |y| == 4 && AllDigits(y)
  {
    s[i..i + 4]
  }

  predicate ValidMonthAt(s: string, i: nat) {
    MonthMarkAt(s, i).Some? && 1 <= MonthAt(s, i) <= 12
  }

  /** "Mon D, YYYY" for the last day of the month found at `i`. */
  function LastDayDate(s: string, i: nat): string
    requires ValidMonthAt(s, i)
  {
    var m := MonthAt(s, i);
    MonthNames[m - 1] + " " + Decimal(DaysInMonth(DigitsValue(YearAt(s, i)), m)) + ", " + YearAt(s, i)
  }

  /** "Mon YYYY" for the month found at `i`. */
  function MonthDate(s: string, i: nat): string
    requires ValidMonthAt(s, i)
  {
    MonthNames[MonthAt(s, i) - 1] + " " + YearAt(s, i)
  }

  /** "Mon DD, YYYY" with the day digits kept as written. */
  function DayDate(s: string, i: nat): string
    requires ValidMonthAt(s, i) && FormAt(s, i, DayOf)
  {
    var m := MonthMarkAt(s, i).value;
    MonthNames[MonthAt(s, i) - 1] + " " + s[m + 1..DayMarkAt(s, m).value] + ", " + YearAt(s, i)
  }

  /** The three searches on the cleaned string, in the order of the source. */
  function ConvertCleaned(s: string): string {
    var e := Leftmost(s, MonthEnd, 0);
    if e.Some? && ValidMonthAt(s, e.value) then LastDayDate(s, e.value)
    else
      var o := Leftmost(s, MonthOnly, 0);
      if o.Some? && ValidMonthAt(s, o.value) then MonthDate(s, o.value)
      else
        var d := Leftmost(s, DayOf, 0);
        if d.Some? && ValidMonthAt(s, d.value) then DayDate(s, d.value)
        else s
  }

  /** `convert_chinese_date_to_english`. */
  function ConvertDate(ds: string): (r: string)
    ensures ds == [] ==> r == []
  {
    if ds == [] then ds else ConvertCleaned(Strip(ReplaceAll(ds, "到期", "")))
  }

  // ---------------------------------------------------------------------------
  // What the conversion does to well-formed dates
  // ---------------------------------------------------------------------------

  /** Skipping positions where the shape does not match. */
  lemma {:induction false} LeftmostSkip(s: string, f: DateForm, i: nat, j: nat)
    requires i <= j <= |s|
    requires forall k :: i <= k < j ==> !FormAt(s, k, f)
    ensures Leftmost(s, f, i) == Leftmost(s, f, j)
    decreases j - i
  {
    if i < j {
      LeftmostSkip(s, f, i + 1, j);
    }
  }

  /** A stamp `YYYY年M月` or `YYYY年MM月` at `i` whose month has `n` digits. */
  lemma StampAt(s: string, i: nat, n: nat)
    requires 1 <= n <= 2 && i + 6 + n <= |s|
    requires AllDigits(s[i..i + 4]) && s[i + 4] == '年'
    requires AllDigits(s[i + 5..i + 5 + n]) && s[i + 5 + n] == '月'
    ensures MonthMarkAt(s, i) == Some(i + 5 + n)
  {
    assert s[i + 5..i + 5 + n][0] == s[i + 5];
    if n == 2 {
      assert s[i + 5..i + 5 + n][1] == s[i + 6];
    }
  }

  /** When the only stamp is at the start and ends with 月底, the first search
      answers. */
  lemma CleanedMonthEnd(s: string)
    requires FormAt(s, 0, MonthEnd) && ValidMonthAt(s, 0)
    ensures ConvertCleaned(s) == LastDayDate(s, 0)
  {
  }

  /** When the only stamp is at the start and no 底 follows it, the second
      search answers. */
  lemma CleanedMonthOnly(s: string)
    requires FormAt(s, 0, MonthOnly) && ValidMonthAt(s, 0)
    requires forall k :: 0 < k ==> MonthMarkAt(s, k).None?
    ensures ConvertCleaned(s) == MonthDate(s, 0)
  {
    assert Leftmost(s, MonthEnd, 0).None?;
  }

  /** A date stamp `YYYY年M月` or `YYYY年MM月`. */
  predicate Stamp(y: string, mm: string) {
    |y| == 4 && AllDigits(y) && 1 <= |mm| <= 2 && AllDigits(mm) && 1 <= DigitsValue(mm) <= 12
  }

  /** The trailing 到期 the source removes, or nothing. */
  predicate Suffix(t: string) {
    t == "" || t == "到期"
  }

  /** Removing 到期 from `core + suffix` and stripping leaves `core` when
      `core` neither starts nor ends with whitespace and holds no 到. */
  lemma CleanedCore(core: string, suffix: string)
    requires core != [] && IsStripped(core) && '到' !in core
    requires Suffix(suffix)
    ensures Strip(ReplaceAll(core + suffix, "到期", "")) == core
  {
    ReplaceAllAfter(core, suffix, "到期", "");
    if suffix == "" {
      assert ReplaceAll(suffix, "到期", "") == "";
    } else {
      assert ReplaceAll(suffix, "到期", "") == "" + ReplaceAll(suffix[2..], "到期", "");
    }
    assert core + [] == core;
    StripStripped(core);
  }

  /** Where the pieces of `y年mm月rest` sit. */
  lemma StampSlices(y: string, mm: string, rest: string)
    requires |y| == 4 && 1 <= |mm| <= 2
    ensures var s := y + "年" + mm + "月" + rest;
      && s[..4] == y && s[4] == '年' && s[5..5 + |mm|] == mm && s[5 + |mm|] == '月'
      && s[6 + |mm|..] == rest
  {
    var s := y + "年" + mm + "月" + rest;
    assert s[..4] == y;
    assert s[5..5 + |mm|] == mm;
    assert s[6 + |mm|..] == rest;
  }

  /** The stamp at the start of `y年mm月rest` holds year `y` and month `mm`,
      and no 年 or 到 comes from its digits. */
  lemma StampParts(y: string, mm: string, rest: string)
    requires Stamp(y, mm)
    ensures var s := y + "年" + mm + "月" + rest;
      && MonthMarkAt(s, 0) == Some(5 + |mm|)
      && YearAt(s, 0) == y && MonthAt(s, 0) == DigitsValue(mm)
      && s[6 + |mm|..] == rest
      && IsDigit(s[0])
      && (forall k :: 0 <= k < 6 + |mm| && k != 4 ==> s[k] != '年' && s[k] != '到')
  {
    var s := y + "年" + mm + "月" + rest;
    StampSlices(y, mm, rest);
    assert s[0..4] == s[..4];
    StampAt(s, 0, |mm|);
    assert s[0] == s[..4][0];
    forall k | 0 <= k < 6 + |mm| && k != 4 ensures s[k] != '年' && s[k] != '到' {
      if k < 4 {
        assert s[k] == s[..4][k];
      } else if k < 5 + |mm| {
        assert s[k] == s[5..5 + |mm|][k - 5];
      }
    }
  }

  /** In `y年mm月rest` with no 年 in `rest`, a stamp can only match at the start. */
  lemma OnlyStampAtStart(y: string, mm: string, rest: string)
    requires Stamp(y, mm) && '年' !in rest
    ensures forall i :: 0 < i ==> MonthMarkAt(y + "年" + mm + "月" + rest, i).None?
  {
    var s := y + "年" + mm + "月" + rest;
    StampParts(y, mm, rest);
    forall k | 4 < k < |s| ensures s[k] != '年' {
      if k >= 6 + |mm| {
        assert s[k] == s[6 + |mm|..][k - 6 - |mm|];
      }
    }
  }

  /** The conversion of a well-formed core followed by an optional 到期 is
      the conversion of the core. */
  lemma ConvertCore(core: string, suffix: string)
    requires core != [] && IsStripped(core) && '到' !in core && Suffix(suffix)
    ensures ConvertDate(core + suffix) == ConvertCleaned(core)
  {
    CleanedCore(core, suffix);
  }

  /** "YYYY年M月底" (optionally followed by 到期) becomes the last day of that
      month, leap years included. */
  lemma ConvertMonthEnd(y: string, mm: string, suffix: string)
    requires Stamp(y, mm) && Suffix(suffix)
    ensures ConvertDate(y + "年" + mm + "月底" + suffix)
         == MonthNames[DigitsValue(mm) - 1] + " "
            + Decimal(DaysInMonth(DigitsValue(y), DigitsValue(mm))) + ", " + y
  {
    var core := y + "年" + mm + "月" + "底";
    assert y + "年" + mm + "月底" + suffix == core + suffix;
    StampParts(y, mm, "底");
    assert |core| == 7 + |mm| && core[6 + |mm|] == '底';
    assert '到' !in core by {
      forall k | 0 <= k < |core| ensures core[k] != '到' {
        if k == 4 {
          assert core[4] == '年';
        } else if k == 6 + |mm| {
          assert core[k] == '底';
        }
      }
    }
    ConvertCore(core, suffix);
    assert FormAt(core, 0, MonthEnd);
    CleanedMonthEnd(core);
  }

  /** "YYYY年M月" (optionally followed by 到期) becomes "Mon YYYY". */
  lemma ConvertMonth(y: string, mm: string, suffix: string)
    requires Stamp(y, mm) && Suffix(suffix)
    ensures ConvertDate(y + "年" + mm + "月" + suffix) == MonthNames[DigitsValue(mm) - 1] + " " + y
  {
    var core := y + "年" + mm + "月" + "";
    assert y + "年" + mm + "月" + suffix == core + suffix;
    StampParts(y, mm, "");
    OnlyStampAtStart(y, mm, "");
    assert |core| == 6 + |mm| && core[5 + |mm|] == '月';
    assert '到' !in core by {
      forall k | 0 <= k < |core| ensures core[k] != '到' {}
    }
    ConvertCore(core, suffix);
    assert FormAt(core, 0, MonthOnly);
    CleanedMonthOnly(core);
  }

  /** The docstring's third example does not come out as it promises: a full
      date "YYYY年M月D日" is caught by the month-only search first, so the
      day is dropped ("2026年1月31日" gives "Jan 2026", not "Jan 31, 2026"). */
  lemma ConvertDayDropsDay(y: string, mm: string, dd: string, suffix: string)
    requires Stamp(y, mm) && 1 <= |dd| <= 2 && AllDigits(dd) && Suffix(suffix)
    ensures ConvertDate(y + "年" + mm + "月" + dd + "日" + suffix) == MonthNames[DigitsValue(mm) - 1] + " " + y
  {
    var core := y + "年" + mm + "月" + (dd + "日");
    assert y + "年" + mm + "月" + dd + "日" + suffix == core + suffix;
    DayCore(y, mm, dd);
    ConvertCore(core, suffix);
    CleanedMonthOnly(core);
  }

  /** `y年mm月dd日` is a clean date whose only stamp is at the start and is not
      followed by 底. */
  lemma DayCore(y: string, mm: string, dd: string)
    requires Stamp(y, mm) && 1 <= |dd| <= 2 && AllDigits(dd)
    ensures var core := y + "年" + mm + "月" + (dd + "日");
      && core != [] && IsStripped(core) && '到' !in core
      && FormAt(core, 0, MonthOnly) && ValidMonthAt(core, 0)
      && MonthDate(core, 0) == MonthNames[DigitsValue(mm) - 1] + " " + y
      && forall k :: 0 < k ==> MonthMarkAt(core, k).None?
  {
    var rest := dd + "日";
    var core := y + "年" + mm + "月" + rest;
    assert '年' !in rest && '到' !in rest by {
      forall k | 0 <= k < |rest| ensures rest[k] != '年' && rest[k] != '到' {
        if k < |dd| { assert rest[k] == dd[k]; }
      }
    }
    StampParts(y, mm, rest);
    OnlyStampAtStart(y, mm, rest);
    assert core[6 + |mm|] == rest[0] == dd[0];
    assert core[|core| - 1] == rest[|rest| - 1] == '日';
    forall k | 6 + |mm| <= k < |core| ensures core[k] != '到' {
      assert core[k] == rest[k - 6 - |mm|];
    }
  }

  /** Text without any 年 and without whitespace at either end, 到 nowhere in
      it, comes back unchanged. */
  lemma ConvertPassesThrough(s: string)
    requires IsStripped(s) && '年' !in s && '到' !in s
    ensures ConvertDate(s) == s
  {
    if s != [] {
      assert s[0] in s;
      ReplaceAllAbsent(s, "到期", "");
      StripStripped(s);
      forall k | 0 <= k < |s| ensures s[k] != '年' {
        assert s[k] in s;
      }
      assert Leftmost(s, MonthEnd, 0).None?;
      assert Leftmost(s, MonthOnly, 0).None?;
      assert Leftmost(s, DayOf, 0).None?;
    }
  }

  /** Text with no 年 has no date stamp, so every search fails and the
      conversion returns the text with 到期 removed, stripped. */
  lemma ConvertFallback(ds: string)
    requires ds != [] && '年' !in ds
    ensures ConvertDate(ds) == Strip(ReplaceAll(ds, "到期", ""))
  {
    var t := ReplaceAll(ds, "到期", "");
    var s := Strip(t);
    ReplaceAllKeeps(ds, "到期", "");
    StripKeeps(t);
    assert '年' !in t;
    forall i | 0 <= i < |s| ensures s[i] != '年' {
      assert s[i] in t;
    }
    NoYearKept(s);
  }

  /** Every search needs a 年, so text without one is returned as it is. */
  lemma NoYearKept(s: string)
    requires forall i :: 0 <= i < |s| ==> s[i] != '年'
    ensures ConvertCleaned(s) == s
  {
    assert forall i: nat :: MonthMarkAt(s, i).None?;
    assert Leftmost(s, MonthEnd, 0).None?;
    assert Leftmost(s, MonthOnly, 0).None?;
    assert Leftmost(s, DayOf, 0).None?;
  }

  /** The one stamp of "2026年13月": at 0, with month 13. */
  lemma BadMonthStamp(c: string)
    requires c == "2026年13月"
    ensures MonthMarkAt(c, 0) == Some(7) && MonthAt(c, 0) == 13
    ensures forall k :: 0 < k ==> MonthMarkAt(c, k).None?
  {
    StampAt(c, 0, 2);
    assert c[5..7] == "13";
    assert DigitsValue("13") == 13;
    assert c[5] != '年';
  }

  /** No search accepts "2026年13月", so it comes back as it is. */
  lemma BadMonthCleaned(c: string)
    requires c == "2026年13月"
    ensures ConvertCleaned(c) == c
  {
    BadMonthStamp(c);
    assert !FormAt(c, 0, MonthEnd) && !FormAt(c, 0, DayOf);
    assert Leftmost(c, MonthEnd, 0).None?;
    assert Leftmost(c, DayOf, 0).None?;
  }

  /** A stamp whose month lies outside 1..12 is not converted: only 到期 is
      removed, so "2026年13月到期" gives "2026年13月". */
  lemma ConvertBadMonthExample(s: string)
    requires s == "2026年13月到期"
    ensures ConvertDate(s) == "2026年13月"
  {
    var core := "2026年13月";
    assert s == core + "到期";
    assert forall k :: 0 <= k < |core| ==> core[k] != '到';
    ConvertCore(core, "到期");
    BadMonthCleaned(core);
  }

  const DayExample := "2026年13月2026年1月5日"

  /** The stamps of `DayExample`: 2026年13月 at 0 and 2026年1月 at 8. */
  lemma DayExampleStamps()
    ensures MonthMarkAt(DayExample, 0) == Some(7) && MonthAt(DayExample, 0) == 13
    ensures MonthMarkAt(DayExample, 8) == Some(14) && MonthAt(DayExample, 8) == 1
    ensures forall k :: k != 0 && k != 8 ==> MonthMarkAt(DayExample, k).None?
  {
    var s := DayExample;
    assert s[0..4] == "2026" && s[4] == '年' && s[5..7] == "13" && s[7] == '月';
    assert s[8..12] == "2026" && s[12] == '年' && s[13..14] == "1" && s[14] == '月';
    StampAt(s, 0, 2);
    StampAt(s, 8, 1);
    assert s[5..7] == "13" && "13"[..1] == "1";
    assert DigitsValue("1") == 1;
    assert DigitsValue("13") == 13;
    assert s[13..14] == "1";
    assert forall k :: 4 < k < |s| && k != 12 ==> s[k] != '年';
  }

  /** Where the three searches land in `DayExample`. */
  lemma DayExampleSearches()
    ensures Leftmost(DayExample, MonthEnd, 0).None?
    ensures Leftmost(DayExample, MonthOnly, 0) == Some(0) && !ValidMonthAt(DayExample, 0)
    ensures Leftmost(DayExample, DayOf, 0) == Some(8) && ValidMonthAt(DayExample, 8)
  {
    var s := DayExample;
    DayExampleStamps();
    assert !FormAt(s, 0, MonthEnd) && !FormAt(s, 8, MonthEnd);
    assert !FormAt(s, 0, DayOf);
    LeftmostSkip(s, DayOf, 0, 8);
    assert DayMarkAt(s, 14) == Some(16);
  }

  lemma DayExampleClean()
    ensures ConvertDate(DayExample) == ConvertCleaned(DayExample)
  {
    var s := DayExample;
    assert s + "" == s;
    assert forall k :: 0 <= k < |s| ==> s[k] != '到';
    ConvertCore(s, "");
  }

  lemma DayExampleCleaned(s: string)
    requires s == DayExample
    ensures ValidMonthAt(s, 8) && FormAt(s, 8, DayOf)
    ensures ConvertCleaned(s) == DayDate(s, 8)
  {
    DayExampleSearches();
  }

  lemma DayExampleDate(s: string)
    requires s == DayExample
    requires ValidMonthAt(s, 8) && FormAt(s, 8, DayOf)
    ensures DayDate(s, 8) == "Jan 5, 2026"
  {
    DayExampleStamps();
    assert DayMarkAt(s, 14) == Some(16);
    assert s[15..16] == "5" && s[8..12] == "2026";
  }

  /** The 日 search is reached only when the leftmost month-only stamp has a
      month outside 1..12: "2026年13月2026年1月5日" gives "Jan 5, 2026". */
  lemma DayBranchExample(s: string)
    requires s == DayExample
    ensures ConvertDate(s) == "Jan 5, 2026"
  {
    DayExampleClean();
    DayExampleCleaned(s);
    DayExampleDate(s);
  }
}
