/** Ranked picks and the post-processing both parsers apply to them after
    pattern matching: first-wins de-duplication (`if not any(...): append`),
    the stable `list.sort(key=top_num)` and the `[:3]` cut. */
module Picks {
  import opened Text

  /** One pick dict of the source. A stock pick carries `ticker`, `action`,
      `top_num`, `reasoning` and `confidence`; an option pick carries
      `ticker`, `type`, `strike`, `top_num`, `expiry` and `confidence`. */
  datatype Pick =
    | StockPick(ticker: string, action: string, topNum: nat, reasoning: string, confidence: string)
    | OptionPick(ticker: string, kind: string, strike: string, topNum: nat, expiry: string, confidence: string)

  /** One `re.finditer` match of a stock pattern: `int(group(1))`, `group(2)`
      and `group(3)` before `.upper()`. */
  datatype RawStock = RawStock(topNum: nat, ticker: string, action: string)

  /** One `re.finditer` match of an option pattern: `int(group(1))`,
      `group(2)`, `group(3)` before `.upper()`, and `rest`, the groups after
      the third (`None` where a group did not take part in the match), whose
      length is the pattern's group count minus three. */
  datatype RawOption = RawOption(topNum: nat, ticker: string, kind: string, rest: seq<Option<string>>)

  /** The value of an optional capture in a Python truth test. */
  predicate Captured(g: Option<string>) {
    g.Some? && g.value != []
  }

  /** What the source compares to detect a duplicate: the ticker for a stock,
      the ticker and type for an option. */
  function Key(p: Pick): (string, string) {
    match p
    case StockPick(t, _, _, _, _) => (t, "")
    case OptionPick(t, k, _, _, _, _) => (t, k)
  }

  predicate HasKey(s: seq<Pick>, k: (string, string)) {
    exists i :: 0 <= i < |s| && Key(s[i]) == k
  }

  predicate KeysDistinct(s: seq<Pick>) {
    forall i, j :: 0 <= i < j < |s| ==> Key(s[i]) != Key(s[j])
  }

  // ---------------------------------------------------------------------------
  // First-wins de-duplication
  // ---------------------------------------------------------------------------

  /** The list the source builds by appending each accepted pick unless a pick
      with the same key is already there. */
  function Dedup(s: seq<Pick>): seq<Pick>
    decreases |s|
  {
    if s == [] then []
    else
      var d := Dedup(s[..|s| - 1]);
      if HasKey(d, Key(s[|s| - 1])) then d else d + [s[|s| - 1]]
  }

  /** The first element of `s` with key `k`. */
  function FirstWithKey(s: seq<Pick>, k: (string, string)): Option<Pick> {
    if s == [] then None else if Key(s[0]) == k then Some(s[0]) else FirstWithKey(s[1..], k)
  }

  /** The position of the first element of `s` with key `k` (`|s|` when there
      is none). */
  function FirstIndex(s: seq<Pick>, k: (string, string)): (i: nat)
    ensures i <= |s|
  {
    if s == [] then 0 else if Key(s[0]) == k then 0 else 1 + FirstIndex(s[1..], k)
  }

  /** `FirstIndex` is the position of the first pick with key `k`. */
  lemma {:induction false} FirstIndexFacts(s: seq<Pick>, k: (string, string))
    ensures var i := FirstIndex(s, k);
      && (i < |s| ==> Key(s[i]) == k)
      && (forall j :: 0 <= j < i ==> Key(s[j]) != k)
  {
    if s != [] && Key(s[0]) != k {
      FirstIndexFacts(s[1..], k);
      forall j | 0 < j < FirstIndex(s, k) ensures Key(s[j]) != k {
        assert s[j] == s[1..][j - 1];
      }
    }
  }

  /** Appending a pick moves no first position; a key seen for the first time
      gets the appended position. */
  lemma FirstIndexAppend(s: seq<Pick>, x: Pick, k: (string, string))
    ensures HasKey(s, k) ==> FirstIndex(s + [x], k) == FirstIndex(s, k)
    ensures !HasKey(s, k) && Key(x) == k ==> FirstIndex(s + [x], k) == |s|
  {
    var t := s + [x];
    FirstIndexFacts(s, k);
    FirstIndexFacts(t, k);
    if HasKey(s, k) {
      var j := FirstIndex(s, k);
      assert t[j] == s[j];
    } else if Key(x) == k {
      assert t[|s|] == x;
    }
  }

  lemma {:induction false} FirstWithKeyFound(s: seq<Pick>, k: (string, string))
    ensures FirstWithKey(s, k).Some? <==> HasKey(s, k)
    ensures FirstWithKey(s, k).Some? ==> Key(FirstWithKey(s, k).value) == k
  {
    if s != [] {
      FirstWithKeyFound(s[1..], k);
      if Key(s[0]) != k {
        assert HasKey(s, k) ==> HasKey(s[1..], k) by {
          if HasKey(s, k) {
            var i :| 0 <= i < |s| && Key(s[i]) == k;
            assert s[1..][i - 1] == s[i];
          }
        }
        assert HasKey(s[1..], k) ==> HasKey(s, k) by {
          if HasKey(s[1..], k) {
            var i :| 0 <= i < |s[1..]| && Key(s[1..][i]) == k;
            assert s[i + 1] == s[1..][i];
          }
        }
      }
    }
  }

  lemma FirstWithKeyAppend(s: seq<Pick>, x: Pick, k: (string, string))
    ensures FirstWithKey(s + [x], k) == if HasKey(s, k) then FirstWithKey(s, k) else if Key(x) == k then Some(x) else None
  {
    FirstWithKeyAppendInduct(s, x, k);
  }

  lemma {:induction false} FirstWithKeyAppendInduct(s: seq<Pick>, x: Pick, k: (string, string))
    ensures FirstWithKey(s + [x], k) == if HasKey(s, k) then FirstWithKey(s, k) else if Key(x) == k then Some(x) else None
  {
    FirstWithKeyFound(s, k);
    if s != [] {
      assert (s + [x])[1..] == s[1..] + [x];
      FirstWithKeyAppendInduct(s[1..], x, k);
      FirstWithKeyFound(s[1..], k);
    }
  }

  /** De-duplication keeps, for every key in the input, exactly the first pick
      with that key; it keeps them in the order of their first appearance, and
      no two kept picks share a key. */
  lemma DedupFirstWins(s: seq<Pick>)
    ensures KeysDistinct(Dedup(s))
    ensures forall k :: HasKey(Dedup(s), k) <==> HasKey(s, k)
    ensures forall p :: p in Dedup(s) ==> FirstWithKey(s, Key(p)) == Some(p)
    ensures forall i, j :: 0 <= i < j < |Dedup(s)| ==> FirstIndex(s, Key(Dedup(s)[i])) < FirstIndex(s, Key(Dedup(s)[j]))
  {
    DedupKeys(s);
    DedupOrder(s);
  }

  /** The key part of `DedupFirstWins`. */
  lemma {:induction false} DedupKeys(s: seq<Pick>)
    ensures KeysDistinct(Dedup(s))
    ensures forall k :: HasKey(Dedup(s), k) <==> HasKey(s, k)
    ensures forall p :: p in Dedup(s) ==> FirstWithKey(s, Key(p)) == Some(p)
    decreases |s|
  {
    if s != [] {
      var init, x := s[..|s| - 1], s[|s| - 1];
      assert s == init + [x];
      DedupKeys(init);
      var d := Dedup(init);
      forall k ensures FirstWithKey(s, k) == if HasKey(init, k) then FirstWithKey(init, k) else if Key(x) == k then Some(x) else None {
        FirstWithKeyAppend(init, x, k);
      }
      forall k ensures HasKey(s, k) <==> HasKey(init, k) || Key(x) == k {
        if HasKey(s, k) && !HasKey(init, k) {
          var i :| 0 <= i < |s| && Key(s[i]) == k;
        }
        if HasKey(init, k) {
          var i :| 0 <= i < |init| && Key(init[i]) == k;
          assert s[i] == init[i];
        }
        if Key(x) == k { assert s[|s| - 1] == x; }
      }
      if !HasKey(d, Key(x)) {
        var d' := d + [x];
        forall k ensures HasKey(d', k) <==> HasKey(d, k) || Key(x) == k {
          if HasKey(d', k) && !HasKey(d, k) {
            var i :| 0 <= i < |d'| && Key(d'[i]) == k;
          }
          if HasKey(d, k) {
            var i :| 0 <= i < |d| && Key(d[i]) == k;
            assert d'[i] == d[i];
          }
          if Key(x) == k { assert d'[|d'| - 1] == x; }
        }
        forall i | 0 <= i < |d|
          ensures Key(d'[i]) != Key(x)
        {
          assert d'[i] == d[i];
        }
      }
    }
  }

  /** The order part of `DedupFirstWins`. */
  lemma {:induction false} DedupOrder(s: seq<Pick>)
    ensures forall i, j :: 0 <= i < j < |Dedup(s)| ==> FirstIndex(s, Key(Dedup(s)[i])) < FirstIndex(s, Key(Dedup(s)[j]))
    decreases |s|
  {
    if s != [] {
      var init, x := s[..|s| - 1], s[|s| - 1];
      assert s == init + [x];
      DedupKeys(init);
      DedupOrder(init);
      DedupKeepsOrder(init, x);
    }
  }

  /** The order part of `DedupFirstWins` for one appended pick: first positions
      of keys already kept do not move, and a new key comes last. */
  lemma DedupKeepsOrder(init: seq<Pick>, x: Pick)
    requires forall k :: HasKey(Dedup(init), k) <==> HasKey(init, k)
    requires forall i, j :: 0 <= i < j < |Dedup(init)| ==> FirstIndex(init, Key(Dedup(init)[i])) < FirstIndex(init, Key(Dedup(init)[j]))
    ensures var s, e := init + [x], Dedup(init + [x]);
      forall i, j :: 0 <= i < j < |e| ==> FirstIndex(s, Key(e[i])) < FirstIndex(s, Key(e[j]))
  {
    var s, d := init + [x], Dedup(init);
    assert s[..|s| - 1] == init;
    forall i | 0 <= i < |d| ensures FirstIndex(s, Key(d[i])) == FirstIndex(init, Key(d[i])) < |init| {
      assert HasKey(d, Key(d[i]));
      FirstIndexFacts(init, Key(d[i]));
      FirstIndexAppend(init, x, Key(d[i]));
    }
    if !HasKey(d, Key(x)) {
      FirstIndexAppend(init, x, Key(x));
      var e := d + [x];
      forall i, j | 0 <= i < j < |e| ensures FirstIndex(s, Key(e[i])) < FirstIndex(s, Key(e[j])) {
        assert e[i] == d[i];
        if j < |d| {
          assert e[j] == d[j];
        }
      }
    }
  }

  // ---------------------------------------------------------------------------
  // Stable sort by top_num
  // ---------------------------------------------------------------------------

  predicate SortedByRank(s: seq<Pick>) {
    forall i, j :: 0 <= i < j < |s| ==> s[i].topNum <= s[j].topNum
  }

  /** The picks of `s` with rank `r`, in order. */
  function WithRank(s: seq<Pick>, r: nat): seq<Pick> {
    if s == [] then [] else (if s[0].topNum == r then [s[0]] else []) + WithRank(s[1..], r)
  }

  /** Insert `x` in front of the first element whose rank is not smaller. */
  function Insert(x: Pick, t: seq<Pick>): seq<Pick> {
    if t == [] || x.topNum <= t[0].topNum then [x] + t else [t[0]] + Insert(x, t[1..])
  }

  /** `list.sort(key=lambda x: x['top_num'])`, as an insertion sort. */
  function SortByRank(s: seq<Pick>): seq<Pick> {
    if s == [] then [] else Insert(s[0], SortByRank(s[1..]))
  }

  lemma {:induction false} InsertMembers(x: Pick, t: seq<Pick>)
    ensures multiset(Insert(x, t)) == multiset(t) + multiset{x}
    ensures forall y :: y in Insert(x, t) <==> y == x || y in t
  {
    if t != [] && x.topNum > t[0].topNum {
      InsertMembers(x, t[1..]);
      assert t == [t[0]] + t[1..];
    }
  }

  lemma {:induction false} InsertSorted(x: Pick, t: seq<Pick>)
    requires SortedByRank(t)
    ensures SortedByRank(Insert(x, t))
  {
    if t != [] && x.topNum > t[0].topNum {
      InsertSorted(x, t[1..]);
      InsertMembers(x, t[1..]);
      var rest := Insert(x, t[1..]);
      forall y | y in rest ensures t[0].topNum <= y.topNum {
        if y != x {
          var i :| 0 <= i < |t[1..]| && t[1..][i] == y;
          assert t[i + 1] == y;
        }
      }
      assert Insert(x, t) == [t[0]] + rest;
      forall i, j | 0 <= i < j < |[t[0]] + rest|
        ensures ([t[0]] + rest)[i].topNum <= ([t[0]] + rest)[j].topNum
      {
        if i == 0 {
          assert ([t[0]] + rest)[j] == rest[j - 1];
          assert rest[j - 1] in rest;
        }
      }
    }
  }

  lemma {:induction false} InsertStable(x: Pick, t: seq<Pick>, r: nat)
    requires SortedByRank(t)
    ensures WithRank(Insert(x, t), r) == (if x.topNum == r then [x] else []) + WithRank(t, r)
  {
    if t != [] && x.topNum > t[0].topNum {
      InsertStable(x, t[1..], r);
      var rest := Insert(x, t[1..]);
      assert Insert(x, t) == [t[0]] + rest;
      assert ([t[0]] + rest)[1..] == rest;
    } else {
      assert ([x] + t)[1..] == t;
    }
  }

  lemma {:induction false} InsertKeys(x: Pick, t: seq<Pick>)
    requires KeysDistinct(t) && !HasKey(t, Key(x))
    ensures KeysDistinct(Insert(x, t))
  {
    if t != [] && x.topNum > t[0].topNum {
      assert !HasKey(t[1..], Key(x)) by {
        forall i | 0 <= i < |t[1..]| ensures Key(t[1..][i]) != Key(x) {
          assert t[1..][i] == t[i + 1];
        }
      }
      assert KeysDistinct(t[1..]) by {
        forall i, j | 0 <= i < j < |t[1..]| ensures Key(t[1..][i]) != Key(t[1..][j]) {
          assert t[1..][i] == t[i + 1] && t[1..][j] == t[j + 1];
        }
      }
      InsertKeys(x, t[1..]);
      InsertMembers(x, t[1..]);
      var rest := Insert(x, t[1..]);
      forall y | y in rest ensures Key(t[0]) != Key(y) {
        if y != x {
          var i :| 0 <= i < |t[1..]| && t[1..][i] == y;
          assert t[i + 1] == y;
        }
      }
      assert Insert(x, t) == [t[0]] + rest;
      forall i, j | 0 <= i < j < |[t[0]] + rest|
        ensures Key(([t[0]] + rest)[i]) != Key(([t[0]] + rest)[j])
      {
        assert ([t[0]] + rest)[j] == rest[j - 1];
        if i == 0 {
          assert rest[j - 1] in rest;
        } else {
          assert ([t[0]] + rest)[i] == rest[i - 1];
        }
      }
    } else {
      forall i, j | 0 <= i < j < |[x] + t|
        ensures Key(([x] + t)[i]) != Key(([x] + t)[j])
      {
        assert ([x] + t)[j] == t[j - 1];
        if i > 0 {
          assert ([x] + t)[i] == t[i - 1];
        }
      }
    }
  }

  /** Sorting only reorders. */
  lemma {:induction false} SortPermutes(s: seq<Pick>)
    ensures multiset(SortByRank(s)) == multiset(s)
  {
    if s != [] {
      assert s == [s[0]] + s[1..];
      SortPermutes(s[1..]);
      InsertMembers(s[0], SortByRank(s[1..]));
    }
  }

  /** Sorting keeps keys distinct. */
  lemma {:induction false} SortKeysDistinct(s: seq<Pick>)
    requires KeysDistinct(s)
    ensures KeysDistinct(SortByRank(s))
  {
    if s != [] {
      var x, tail := s[0], s[1..];
      assert KeysDistinct(tail) by {
        forall i, j | 0 <= i < j < |tail| ensures Key(tail[i]) != Key(tail[j]) {
          assert tail[i] == s[i + 1] && tail[j] == s[j + 1];
        }
      }
      SortKeysDistinct(tail);
      SortPermutes(tail);
      var sorted := SortByRank(tail);
      assert !HasKey(sorted, Key(x)) by {
        forall i | 0 <= i < |sorted| ensures Key(sorted[i]) != Key(x) {
          assert sorted[i] in multiset(tail);
          var j :| 0 <= j < |tail| && tail[j] == sorted[i];
          assert s[j + 1] == tail[j];
        }
      }
      InsertKeys(x, sorted);
    }
  }

  /** Sorting yields a list ordered by rank that is a permutation of the input
      and keeps the input order among picks of equal rank (a stable sort); it
      also keeps keys distinct. */
  lemma {:induction false} SortByRankFacts(s: seq<Pick>)
    ensures SortedByRank(SortByRank(s))
    ensures multiset(SortByRank(s)) == multiset(s)
    ensures forall r :: WithRank(SortByRank(s), r) == WithRank(s, r)
    ensures KeysDistinct(s) ==> KeysDistinct(SortByRank(s))
  {
    SortPermutes(s);
    if KeysDistinct(s) {
      SortKeysDistinct(s);
    }
    if s != [] {
      var x, tail := s[0], s[1..];
      assert s == [x] + tail;
      SortByRankFacts(tail);
      var sorted := SortByRank(tail);
      InsertSorted(x, sorted);
      forall r ensures WithRank(SortByRank(s), r) == WithRank(s, r) {
        InsertStable(x, sorted, r);
      }
    }
  }

  /** Where `Insert` puts `x`: after the picks that rank strictly better,
      in front of the rest. */
  lemma {:induction false} InsertShape(x: Pick, t: seq<Pick>) returns (m: nat)
    ensures m <= |t| && Insert(x, t) == t[..m] + [x] + t[m..]
    ensures forall i :: 0 <= i < m ==> t[i].topNum < x.topNum
  {
    if t == [] || x.topNum <= t[0].topNum {
      m := 0;
    } else {
      var m' := InsertShape(x, t[1..]);
      m := m' + 1;
      assert t[..m] == [t[0]] + t[1..][..m'];
      assert t[m..] == t[1..][m'..];
      forall i | 0 <= i < m ensures t[i].topNum < x.topNum {
        if i > 0 {
          assert t[i] == t[1..][i - 1];
        }
      }
    }
  }

  /** Of two picks of equal rank in `sorted`, the one placed first comes first
      in `s` (positions taken by key). */
  predicate StableFor(sorted: seq<Pick>, s: seq<Pick>) {
    forall i, j :: 0 <= i < j < |sorted| && sorted[i].topNum == sorted[j].topNum ==>
      FirstIndex(s, Key(sorted[i])) < FirstIndex(s, Key(sorted[j]))
  }

  /** The sort is stable: of two picks of equal rank, the one placed first
      comes first in the input (positions taken by key, which the input
      keeps distinct). */
  lemma {:induction false} SortStable(s: seq<Pick>)
    requires KeysDistinct(s)
    ensures StableFor(SortByRank(s), s)
  {
    if s != [] {
      var x, tail := s[0], s[1..];
      TailKeysDistinct(s);
      SortStable(tail);
      var st := SortByRank(tail);
      SortMembers(tail);
      var m := InsertShape(x, st);
      HeadKeyShift(s);
      InsertKeepsStable(x, tail, st, m);
    }
  }

  lemma TailKeysDistinct(s: seq<Pick>)
    requires s != [] && KeysDistinct(s)
    ensures KeysDistinct(s[1..])
  {
    var tail := s[1..];
    forall i, j | 0 <= i < j < |tail| ensures Key(tail[i]) != Key(tail[j]) {
      assert tail[i] == s[i + 1] && tail[j] == s[j + 1];
    }
  }

  /** Sorting keeps only picks of its input. */
  lemma SortMembers(s: seq<Pick>)
    ensures forall y :: y in SortByRank(s) ==> y in s
  {
    SortPermutes(s);
    forall y | y in SortByRank(s) ensures y in s {
      assert y in multiset(SortByRank(s));
    }
  }

  /** Behind a head whose key occurs nowhere else, every first position is
      one further on than in the tail. */
  lemma HeadKeyShift(s: seq<Pick>)
    requires s != [] && KeysDistinct(s)
    ensures forall y :: y in s[1..] ==> Key(y) != Key(s[0]) && FirstIndex(s, Key(y)) == 1 + FirstIndex(s[1..], Key(y))
  {
    forall y | y in s[1..] ensures Key(y) != Key(s[0]) {
      var j :| 0 <= j < |s[1..]| && s[1..][j] == y;
      assert s[j + 1] == y;
    }
  }

  /** The step of `SortStable`: putting the head `x` in front of every pick of
      its rank keeps the order stable. */
  lemma InsertKeepsStable(x: Pick, tail: seq<Pick>, st: seq<Pick>, m: nat)
    requires m <= |st| && forall i :: 0 <= i < m ==> st[i].topNum < x.topNum
    requires StableFor(st, tail)
    requires forall y :: y in st ==> y in tail
    requires forall y :: y in tail ==> Key(y) != Key(x) && FirstIndex([x] + tail, Key(y)) == 1 + FirstIndex(tail, Key(y))
    ensures StableFor(st[..m] + [x] + st[m..], [x] + tail)
  {
    var sorted := st[..m] + [x] + st[m..];
    forall i, j | 0 <= i < j < |sorted| && sorted[i].topNum == sorted[j].topNum
      ensures FirstIndex([x] + tail, Key(sorted[i])) < FirstIndex([x] + tail, Key(sorted[j]))
    {
      InsertedPair(x, tail, st, m, i, j);
    }
  }

  /** One pair of `InsertKeepsStable`: `x` sits at `m`, and the other picks
      keep their order from `st`. */
  lemma InsertedPair(x: Pick, tail: seq<Pick>, st: seq<Pick>, m: nat, i: nat, j: nat)
    requires m <= |st| && forall k :: 0 <= k < m ==> st[k].topNum < x.topNum
    requires StableFor(st, tail)
    requires forall y :: y in st ==> y in tail
    requires forall y :: y in tail ==> Key(y) != Key(x) && FirstIndex([x] + tail, Key(y)) == 1 + FirstIndex(tail, Key(y))
    requires var sorted := st[..m] + [x] + st[m..];
      i < j < |sorted| && sorted[i].topNum == sorted[j].topNum
    ensures var sorted := st[..m] + [x] + st[m..];
      FirstIndex([x] + tail, Key(sorted[i])) < FirstIndex([x] + tail, Key(sorted[j]))
  {
    var sorted := st[..m] + [x] + st[m..];
    if i == m {
      assert sorted[i] == x && sorted[j] == st[j - 1];
      assert st[j - 1] in st;
    } else if j != m {
      var a := if i < m then i else i - 1;
      var b := if j < m then j else j - 1;
      assert sorted[i] == st[a] && sorted[j] == st[b];
      assert st[a] in st && st[b] in st;
      assert FirstIndex(tail, Key(st[a])) < FirstIndex(tail, Key(st[b]));
    }
  }

  lemma IndexIn(s: seq<Pick>, x: Pick) returns (i: nat)
    requires x in s
    ensures i < |s| && s[i] == x
  {
    i :| 0 <= i < |s| && s[i] == x;
  }

  // ---------------------------------------------------------------------------
  // sort then [:3]
  // ---------------------------------------------------------------------------

  /** `stocks.sort(key=...); return stocks[:3]` on a de-duplicated list. */
  function TopThree(s: seq<Pick>): (r: seq<Pick>)
    ensures |r| <= 3
  {
    var sorted := SortByRank(s);
    if |sorted| <= 3 then sorted else sorted[..3]
  }

  lemma SortedPrefixBelow(sorted: seq<Pick>, n: nat, p: Pick, q: Pick)
    requires SortedByRank(sorted) && n <= |sorted|
    requires p in sorted && p !in sorted[..n] && q in sorted[..n]
    ensures q.topNum <= p.topNum
  {
    var i := IndexIn(sorted, p);
    var j := IndexIn(sorted[..n], q);
    assert sorted[j] == q;
  }

  /** What the source promises of its result: the first picks of the stable
      sort, as many as there are candidates up to three, in ascending rank,
      each drawn from the candidates; every candidate left out ranks no better
      than every pick kept, and among equal ranks the kept one comes earlier
      in the input; keys stay distinct. */
  lemma TopThreeFacts(s: seq<Pick>)
    requires KeysDistinct(s)
    ensures var r := TopThree(s);
      && r == SortByRank(s)[..|r|]
      && |r| == (if |s| <= 3 then |s| else 3)
      && SortedByRank(r)
      && KeysDistinct(r)
      && (forall p :: p in r ==> p in s)
      && (forall p, q :: p in s && p !in r && q in r ==> q.topNum <= p.topNum)
      && (forall p, q :: p in s && p !in r && q in r && p.topNum == q.topNum ==> FirstIndex(s, Key(q)) < FirstIndex(s, Key(p)))
  {
    SortByRankFacts(s);
    var sorted := SortByRank(s);
    assert |sorted| == |s| by {
      assert |multiset(sorted)| == |multiset(s)|;
    }
    var r := TopThree(s);
    assert r == sorted[..|r|];
    forall p | p in r ensures p in s {
      assert p in multiset(sorted);
    }
    forall p, q | p in s && p !in r && q in r
      ensures q.topNum <= p.topNum
    {
      assert p in multiset(sorted);
      SortedPrefixBelow(sorted, |r|, p, q);
    }
    TopThreeTies(s);
  }

  /** The tie part of `TopThreeFacts`. */
  lemma TopThreeTies(s: seq<Pick>)
    requires KeysDistinct(s)
    ensures var r := TopThree(s);
      forall p, q :: p in s && p !in r && q in r && p.topNum == q.topNum ==> FirstIndex(s, Key(q)) < FirstIndex(s, Key(p))
  {
    SortPermutes(s);
    SortStable(s);
    var sorted, r := SortByRank(s), TopThree(s);
    assert r == sorted[..|r|];
    forall p, q | p in s && p !in r && q in r && p.topNum == q.topNum
      ensures FirstIndex(s, Key(q)) < FirstIndex(s, Key(p))
    {
      assert p in multiset(sorted);
      StablePrefixFirst(sorted, s, |r|, p, q);
    }
  }

  lemma StablePrefixFirst(sorted: seq<Pick>, s: seq<Pick>, n: nat, p: Pick, q: Pick)
    requires StableFor(sorted, s) && n <= |sorted|
    requires p in sorted && p !in sorted[..n] && q in sorted[..n] && p.topNum == q.topNum
    ensures FirstIndex(s, Key(q)) < FirstIndex(s, Key(p))
  {
    var i := IndexIn(sorted, p);
    var j := IndexIn(sorted[..n], q);
    assert sorted[j] == q;
  }

  // ---------------------------------------------------------------------------
  // From raw matches to the returned list
  // ---------------------------------------------------------------------------

  /** The raw matches of the first `n` patterns of a parser: pattern by
      pattern, each pattern's matches in scan order. `matcher(k, section)`
      stands for `re.finditer(top_patterns[k], section, ...)`. */
  function RawsUpTo<T>(matcher: (nat, string) -> seq<T>, section: string, n: nat): seq<T> {
    if n == 0 then [] else RawsUpTo(matcher, section, n - 1) + matcher(n - 1, section)
  }

  lemma RawsUpToStep<T>(matcher: (nat, string) -> seq<T>, section: string, n: nat)
    ensures RawsUpTo(matcher, section, n + 1) == RawsUpTo(matcher, section, n) + matcher(n, section)
  {
  }

  /** The matches seen after `j + 1` turns of an inner loop. */
  lemma SeenStep<T>(done: seq<T>, matches: seq<T>, j: nat)
    requires j < |matches|
    ensures (done + matches[..j]) + [matches[j]] == done + matches[..j + 1]
  {
    assert matches[..j + 1] == matches[..j] + [matches[j]];
  }

  /** The picks built from the raw matches that survive the filter, in order;
      `accept` is the per-match part of the loop body (skip or build a dict). */
  function Candidates<T>(raws: seq<T>, accept: T -> Option<Pick>): seq<Pick> {
    if raws == [] then []
    else
      var c := Candidates(raws[..|raws| - 1], accept);
      match accept(raws[|raws| - 1])
      case None => c
      case Some(p) => c + [p]
  }

  lemma CandidatesAppend<T>(raws: seq<T>, m: T, accept: T -> Option<Pick>)
    ensures Candidates(raws + [m], accept)
         == Candidates(raws, accept) + (match accept(m) case None => [] case Some(p) => [p])
  {
    assert (raws + [m])[..|raws|] == raws;
  }

  /** Every candidate was built from one of the raw matches. */
  lemma {:induction false} CandidatesFrom<T>(raws: seq<T>, accept: T -> Option<Pick>)
    ensures forall p :: p in Candidates(raws, accept) ==> exists m :: m in raws && accept(m) == Some(p)
  {
    if raws != [] {
      var init := raws[..|raws| - 1];
      CandidatesFrom(init, accept);
      assert raws == init + [raws[|raws| - 1]];
      forall p | p in Candidates(raws, accept)
        ensures exists m :: m in raws && accept(m) == Some(p)
      {
        if p in Candidates(init, accept) {
          var m :| m in init && accept(m) == Some(p);
          assert m in raws;
        } else {
          assert accept(raws[|raws| - 1]) == Some(p);
        }
      }
    }
  }

  lemma DedupAppend(s: seq<Pick>, p: Pick)
    ensures Dedup(s + [p]) == if HasKey(Dedup(s), Key(p)) then Dedup(s) else Dedup(s) + [p]
  {
    assert (s + [p])[..|s|] == s;
  }

  /** One turn of a parser's inner loop: skipping the match, or appending its
      pick unless the key is taken, keeps the list equal to the first-wins
      de-duplication of the candidates seen so far. */
  lemma DedupStep<T>(seen: seq<T>, m: T, accept: T -> Option<Pick>, before: seq<Pick>, after: seq<Pick>)
    requires before == Dedup(Candidates(seen, accept))
    requires after == match accept(m)
                      case None => before
                      case Some(p) => if HasKey(before, Key(p)) then before else before + [p]
    ensures after == Dedup(Candidates(seen + [m], accept))
  {
    CandidatesAppend(seen, m, accept);
    if accept(m).Some? {
      DedupAppend(Candidates(seen, accept), accept(m).value);
    }
  }

  /** Every returned pick is one of the candidates. */
  lemma RankedIn(c: seq<Pick>)
    ensures forall p :: p in Ranked(c) ==> p in c
  {
    RankedFacts(c);
  }

  lemma {:induction false} FirstWithKeyIn(s: seq<Pick>, k: (string, string))
    ensures FirstWithKey(s, k).Some? ==> FirstWithKey(s, k).value in s
  {
    if s != [] && Key(s[0]) != k {
      FirstWithKeyIn(s[1..], k);
    }
  }

  /** What both parsers return for the candidate list `c`: the first pick of
      every key, stably sorted by rank, cut to three. */
  function Ranked(c: seq<Pick>): seq<Pick> {
    TopThree(Dedup(c))
  }

  /** The returned list holds as many picks as there are distinct keys among
      the candidates, up to three, with distinct keys, in ascending rank; each
      is the FIRST candidate with its key (a later duplicate never replaces it,
      whatever its rank); a first candidate that was cut ranks no better than
      every pick kept, and when it ties with a kept one, the kept one appeared
      first among the candidates. */
  lemma RankedFacts(c: seq<Pick>)
    ensures var r := Ranked(c);
      && |r| == (if |Dedup(c)| <= 3 then |Dedup(c)| else 3)
      && SortedByRank(r)
      && KeysDistinct(r)
      && (forall p :: p in r ==> p in c && FirstWithKey(c, Key(p)) == Some(p))
      && (forall p, q :: p in c && FirstWithKey(c, Key(p)) == Some(p) && p !in r && q in r ==> q.topNum <= p.topNum)
      && (forall p, q :: p in c && FirstWithKey(c, Key(p)) == Some(p) && p !in r && q in r && p.topNum == q.topNum ==>
            FirstIndex(c, Key(q)) < FirstIndex(c, Key(p)))
  {
    var d := Dedup(c);
    DedupFirstWins(c);
    TopThreeFacts(d);
    var r := Ranked(c);
    forall p | p in r ensures p in c && FirstWithKey(c, Key(p)) == Some(p) {
      FirstWithKeyIn(c, Key(p));
    }
    forall p, q | p in c && FirstWithKey(c, Key(p)) == Some(p) && p !in r && q in r
      ensures q.topNum <= p.topNum
    {
      var i := IndexIn(c, p);
      assert HasKey(c, Key(p));
      assert HasKey(d, Key(p));
      var j :| 0 <= j < |d| && Key(d[j]) == Key(p);
      assert FirstWithKey(c, Key(d[j])) == Some(d[j]);
    }
    RankedTies(c);
  }

  /** The tie part of `RankedFacts`: de-duplication keeps first-appearance
      order and the sort is stable, so a kept pick tying with a cut one
      appeared first. */
  lemma RankedTies(c: seq<Pick>)
    ensures var r := Ranked(c);
      forall p, q :: p in c && FirstWithKey(c, Key(p)) == Some(p) && p !in r && q in r && p.topNum == q.topNum ==>
        FirstIndex(c, Key(q)) < FirstIndex(c, Key(p))
  {
    var d, r := Dedup(c), Ranked(c);
    DedupFirstWins(c);
    TopThreeTies(d);
    forall p, q | p in c && FirstWithKey(c, Key(p)) == Some(p) && p !in r && q in r && p.topNum == q.topNum
      ensures FirstIndex(c, Key(q)) < FirstIndex(c, Key(p))
    {
      assert HasKey(c, Key(p)) by {
        var i := IndexIn(c, p);
      }
      var jp :| 0 <= jp < |d| && Key(d[jp]) == Key(p);
      assert d[jp] == p;
      assert q in d by {
        TopThreeFacts(d);
      }
      var jq := IndexIn(d, q);
      FirstIndexFacts(d, Key(p));
      FirstIndexFacts(d, Key(q));
      assert FirstIndex(d, Key(q)) == jq && FirstIndex(d, Key(p)) == jp;
    }
  }
}
