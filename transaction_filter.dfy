/**
 * The filters of `TransactionFilter` in backend/main.py: by one keyword,
 * by a list of keywords (one bucket per keyword, first match wins), and by
 * a range of `YYYY-MM` months read out of each transaction's date.
 */
module TransactionFilter {
  import opened Wrappers
  import opened Text
  import opened Seqs
  import opened Ordering
  import opened RegexExtractor

  /** The case-insensitive substring test of both keyword filters. */
  predicate Mentions(t: Transaction, keyword: string) {
    Contains(Lower(t.description), Lower(keyword))
  }

  function MentionsKeyword(keyword: string): Transaction -> bool {
    t => Mentions(t, keyword)
  }

  /** `filter_by_keyword`: everything for an empty keyword, else the transactions that mention it, in order. */
  function FilterByKeyword(ts: seq<Transaction>, keyword: string): (r: seq<Transaction>)
    ensures keyword == [] ==> r == ts
    ensures keyword != [] ==> forall t :: t in r <==> t in ts && Mentions(t, keyword)
    ensures keyword != [] ==> forall t :: t in ts ==> multiset(r)[t] == if Mentions(t, keyword) then multiset(ts)[t] else 0
    ensures IsSubsequence(r, ts)
  {
    if keyword == [] then
      SubsequenceRefl(ts);
      ts
    else
      FilterIsSubsequence(ts, MentionsKeyword(keyword));
      FilterCounts(ts, MentionsKeyword(keyword));
      Filter(ts, MentionsKeyword(keyword))
  }

  /** The position of the first keyword the description mentions, or `|keywords|` for none. */
  function FirstMatch(t: Transaction, keywords: seq<string>): (j: nat)
    ensures j <= |keywords|
    ensures forall i :: 0 <= i < j ==> !Mentions(t, keywords[i])
    ensures j < |keywords| ==> Mentions(t, keywords[j])
    decreases |keywords|
  {
    if keywords == [] then 0
    else if Mentions(t, keywords[0]) then 0
    else
      var j := 1 + FirstMatch(t, keywords[1..]);
      assert forall i :: 1 <= i < |keywords| ==> keywords[i] == keywords[1..][i - 1];
      j
  }

  const UnmatchedKey := "Unmatched"
  const AllKey := "All"

  /** The key a transaction is filed under by `filter_by_keywords`. */
  function Bucket(keywords: seq<string>): Transaction -> string {
    t => var j := FirstMatch(t, keywords); if j < |keywords| then keywords[j] else UnmatchedKey
  }

  function MatchedTo(keywords: seq<string>, k: string): Transaction -> bool {
    t => var j := FirstMatch(t, keywords); j < |keywords| && keywords[j] == k
  }

  function MatchesNone(keywords: seq<string>): Transaction -> bool {
    t => FirstMatch(t, keywords) == |keywords|
  }

  /** Files `t` under the first keyword it mentions, if any. */
  function FileUnder(m: map<string, seq<Transaction>>, t: Transaction, keywords: seq<string>): map<string, seq<Transaction>>
    requires forall k :: k in keywords ==> k in m
  {
    var j := FirstMatch(t, keywords);
    if j < |keywords| then m[keywords[j] := m[keywords[j]] + [t]] else m
  }

  /** The buckets of the matched transactions, one per keyword, filled in input order. */
  function MatchedBuckets(ts: seq<Transaction>, keywords: seq<string>): (m: map<string, seq<Transaction>>)
    ensures forall k :: k in m <==> k in keywords
    decreases |ts|
  {
    if ts == [] then map k | k in keywords :: []
    else FileUnder(MatchedBuckets(ts[..|ts| - 1], keywords), ts[|ts| - 1], keywords)
  }

  /** The dict `filter_by_keywords` returns. */
  function KeywordBuckets(ts: seq<Transaction>, keywords: seq<string>): map<string, seq<Transaction>> {
    if keywords == [] then map[AllKey := ts]
    else
      var unmatched := Filter(ts, MatchesNone(keywords));
      if unmatched != [] then MatchedBuckets(ts, keywords)[UnmatchedKey := unmatched]
      else MatchedBuckets(ts, keywords)
  }

  /** Each keyword's bucket holds the transactions whose first mentioned keyword it is, in order. */
  lemma {:induction false} MatchedBucketsAreFilters(ts: seq<Transaction>, keywords: seq<string>, k: string)
    requires k in keywords
    ensures MatchedBuckets(ts, keywords)[k] == Filter(ts, MatchedTo(keywords, k))
    decreases |ts|
  {
    if ts != [] {
      var init, t := ts[..|ts| - 1], ts[|ts| - 1];
      MatchedBucketsAreFilters(init, keywords, k);
      assert ts == init + [t];
      FilterAppend(init, t, MatchedTo(keywords, k));
      assert Filter(init, MatchedTo(keywords, k)) + [] == Filter(init, MatchedTo(keywords, k));
    }
  }

  lemma MatchedBucketsPrefix(ts: seq<Transaction>, n: nat, keywords: seq<string>)
    requires n < |ts|
    ensures MatchedBuckets(ts[..n + 1], keywords) == FileUnder(MatchedBuckets(ts[..n], keywords), ts[n], keywords)
  {
    assert ts[..n + 1][..n] == ts[..n];
  }

  /** The positions below `n` of the transactions that mention some keyword. */
  function MatchedPositions(ts: seq<Transaction>, keywords: seq<string>, n: nat): set<nat>
    requires n <= |ts|
  {
    if n == 0 then {}
    else MatchedPositions(ts, keywords, n - 1) + (if MatchesNone(keywords)(ts[n - 1]) then {} else {n - 1})
  }

  lemma {:induction false} InMatchedPositions(ts: seq<Transaction>, keywords: seq<string>, n: nat, i: nat)
    requires i < n <= |ts|
    ensures i in MatchedPositions(ts, keywords, n) <==> !MatchesNone(keywords)(ts[i])
  {
    if i < n - 1 {
      InMatchedPositions(ts, keywords, n - 1, i);
    } else {
      NotInMatchedPositions(ts, keywords, n - 1);
    }
  }

  lemma {:induction false} NotInMatchedPositions(ts: seq<Transaction>, keywords: seq<string>, n: nat)
    requires n <= |ts|
    ensures forall i: nat :: i in MatchedPositions(ts, keywords, n) ==> i < n
  {
    if n > 0 {
      NotInMatchedPositions(ts, keywords, n - 1);
    }
  }

  /** The inner loop of `filter_by_keywords`: the first keyword the description mentions. */
  method FindKeyword(txn: Transaction, keywords: seq<string>) returns (j: nat)
    ensures j == FirstMatch(txn, keywords)
  {
    var descLower := Lower(txn.description);
    j := 0;
    while j < |keywords|
      invariant 0 <= j <= |keywords|
      invariant forall i :: 0 <= i < j ==> !Mentions(txn, keywords[i])
    {
      if Contains(descLower, Lower(keywords[j])) {
        return;
      }
      j := j + 1;
    }
  }

  /** `filter_by_keywords`. */
  method FilterByKeywords(ts: seq<Transaction>, keywords: seq<string>) returns (r: map<string, seq<Transaction>>)
    ensures r == KeywordBuckets(ts, keywords)
  {
    if keywords == [] {
      return map[AllKey := ts];
    }
    var results, matchedIndices := FileMatched(ts, keywords);
    var unmatched := CollectUnmatched(ts, keywords, matchedIndices);
    if unmatched != [] {
      results := results[UnmatchedKey := unmatched];
    }
    return results;
  }

  /** The first loop of `filter_by_keywords`: each transaction under its first keyword, and where the matches are. */
  method FileMatched(ts: seq<Transaction>, keywords: seq<string>)
    returns (results: map<string, seq<Transaction>>, matchedIndices: set<nat>)
    ensures results == MatchedBuckets(ts, keywords)
    ensures matchedIndices == MatchedPositions(ts, keywords, |ts|)
  {
    results := map k | k in keywords :: [];
    matchedIndices := {};
    for idx: nat := 0 to |ts|
      invariant results == MatchedBuckets(ts[..idx], keywords)
      invariant matchedIndices == MatchedPositions(ts, keywords, idx)
    {
      var txn := ts[idx];
      var j := FindKeyword(txn, keywords);
      if j < |keywords| {
        results := results[keywords[j] := results[keywords[j]] + [txn]];
        matchedIndices := matchedIndices + {idx};
      }
      MatchedBucketsPrefix(ts, idx, keywords);
    }
    assert ts[..|ts|] == ts;
  }

  /** The second loop of `filter_by_keywords`: the transactions at no matched position, in order. */
  method CollectUnmatched(ts: seq<Transaction>, keywords: seq<string>, matchedIndices: set<nat>)
    returns (unmatched: seq<Transaction>)
    requires matchedIndices == MatchedPositions(ts, keywords, |ts|)
    ensures unmatched == Filter(ts, MatchesNone(keywords))
  {
    unmatched := [];
    for idx := 0 to |ts|
      invariant unmatched == Filter(ts[..idx], MatchesNone(keywords))
    {
      InMatchedPositions(ts, keywords, |ts|, idx);
      if idx !in matchedIndices {
        unmatched := unmatched + [ts[idx]];
      }
      FilterPrefix(ts, idx, MatchesNone(keywords));
    }
    assert ts[..|ts|] == ts;
  }

  /**
   * With keywords, every keyword is a key, `Unmatched` is one exactly when
   * it is a keyword or some transaction mentions none of them, and there
   * are no other keys.
   */
  lemma KeywordBucketsKeys(ts: seq<Transaction>, keywords: seq<string>)
    requires keywords != []
    ensures forall k :: k in keywords ==> k in KeywordBuckets(ts, keywords)
    ensures forall k :: k in KeywordBuckets(ts, keywords) ==> k in keywords || k == UnmatchedKey
    ensures UnmatchedKey in KeywordBuckets(ts, keywords) <==>
              UnmatchedKey in keywords || exists i :: 0 <= i < |ts| && FirstMatch(ts[i], keywords) == |keywords|
  {
    var unmatched := Filter(ts, MatchesNone(keywords));
    if exists i :: 0 <= i < |ts| && FirstMatch(ts[i], keywords) == |keywords| {
      var i :| 0 <= i < |ts| && FirstMatch(ts[i], keywords) == |keywords|;
      assert ts[i] in unmatched;
    }
    if unmatched != [] {
      assert unmatched[0] in unmatched;
    }
  }

  /**
   * When no keyword is literally `Unmatched`, each bucket holds exactly the
   * transactions filed under its key, in their original order.
   */
  lemma BucketIsItsTransactions(ts: seq<Transaction>, keywords: seq<string>, k: string)
    requires keywords != [] && UnmatchedKey !in keywords
    requires k in KeywordBuckets(ts, keywords)
    ensures KeywordBuckets(ts, keywords)[k] == Filter(ts, Labelled(Bucket(keywords), k))
    ensures IsSubsequence(KeywordBuckets(ts, keywords)[k], ts)
  {
    KeywordBucketsKeys(ts, keywords);
    if k == UnmatchedKey {
      FilterCongruent(ts, MatchesNone(keywords), Labelled(Bucket(keywords), k));
    } else {
      MatchedBucketsAreFilters(ts, keywords, k);
      FilterCongruent(ts, MatchedTo(keywords, k), Labelled(Bucket(keywords), k));
    }
    FilterIsSubsequence(ts, Labelled(Bucket(keywords), k));
  }

  /** The total size of the buckets listed in `keys`. */
  function SumSizes(m: map<string, seq<Transaction>>, keys: seq<string>): nat
    requires forall k :: k in keys ==> k in m
    decreases |keys|
  {
    if keys == [] then 0 else SumSizes(m, keys[..|keys| - 1]) + |m[keys[|keys| - 1]]|
  }

  lemma {:induction false} SumSizesIsSumLabelled(ts: seq<Transaction>, keywords: seq<string>, keys: seq<string>)
    requires keywords != [] && UnmatchedKey !in keywords
    requires forall k :: k in keys ==> k in KeywordBuckets(ts, keywords)
    ensures SumSizes(KeywordBuckets(ts, keywords), keys) == SumLabelled(ts, Bucket(keywords), keys)
    decreases |keys|
  {
    if keys != [] {
      var init := keys[..|keys| - 1];
      SumSizesIsSumLabelled(ts, keywords, init);
      BucketIsItsTransactions(ts, keywords, keys[|keys| - 1]);
    }
  }

  /**
   * When no keyword is literally `Unmatched`, the buckets partition the
   * input: listing every key once, their sizes add up to the input length.
   */
  lemma BucketsPartition(ts: seq<Transaction>, keywords: seq<string>, keys: seq<string>)
    requires keywords != [] && UnmatchedKey !in keywords
    requires Distinct(keys)
    requires forall k :: k in keys <==> k in KeywordBuckets(ts, keywords)
    ensures SumSizes(KeywordBuckets(ts, keywords), keys) == |ts|
  {
    KeywordBucketsKeys(ts, keywords);
    forall t | t in ts ensures Bucket(keywords)(t) in keys {
      var j := FirstMatch(t, keywords);
      if j == |keywords| {
        var i :| 0 <= i < |ts| && ts[i] == t;
        assert FirstMatch(ts[i], keywords) == |keywords|;
      }
    }
    SumSizesIsSumLabelled(ts, keywords, keys);
    PartitionSizes(ts, Bucket(keywords), keys);
  }

  /** Python's `int(t)` for a two-character string, or None where it raises `ValueError`. */
  function PyIntTwo(t: string): (r: Option<int>)
    requires |t| == 2
    ensures AllDigits(t) ==> r == Some(DigitsValue(t))
    ensures r.Some? && !AllDigits(t) ==> -9 <= r.value <= 9
  {
    if AllDigits(t) then Some(DigitsValue(t))
    else if IsSpace(t[0]) && IsDigit(t[1]) then Some(DigitValue(t[1]))
    else if IsDigit(t[0]) && IsSpace(t[1]) then Some(DigitValue(t[0]))
    else if t[0] == '+' && IsDigit(t[1]) then Some(DigitValue(t[1]))
    else if t[0] == '-' && IsDigit(t[1]) then Some(-(DigitValue(t[1]) as int))
    else None
  }

  function Zeros(n: nat): (r: string)
    ensures |r| == n && forall i :: 0 <= i < n ==> r[i] == '0'
  {
    if n == 0 then [] else Zeros(n - 1) + ['0']
  }

  /** `s.zfill(width)`: zeros on the left, after a leading sign. */
  function Zfill(s: string, width: nat): (r: string)
    ensures |s| >= width ==> r == s
    ensures |s| < width ==> |r| == width
    ensures |s| < width && (s == [] || (s[0] != '+' && s[0] != '-')) ==> r == Zeros(width - |s|) + s
    ensures |s| < width && s != [] && (s[0] == '+' || s[0] == '-') ==> r == [s[0]] + Zeros(width - |s|) + s[1..]
  {
    if |s| >= width then s
    else if s != [] && (s[0] == '+' || s[0] == '-') then [s[0]] + Zeros(width - |s|) + s[1..]
    else Zeros(width - |s|) + s
  }

  /** The `YYYY-MM` built from the pieces of a split date. */
  function MonthFromParts(parts: seq<string>, currentYear: nat): Option<string> {
    if |parts| == 3 then
      var month, year := parts[0], parts[2];
      if |year| == 2 then
        match PyIntTwo(year)
        case None => None
        case Some(v) => Some((if v <= 49 then "20" else "19") + year + "-" + Zfill(month, 2))
      else Some(year + "-" + Zfill(month, 2))
    else if |parts| == 2 then Some(NatToString(currentYear) + "-" + Zfill(parts[0], 2))
    else None
  }

  /** `_extract_month`; the clock's year is a parameter. */
  function ExtractMonth(date: string, currentYear: nat): Option<string> {
    if '/' in date then MonthFromParts(Split(date, '/'), currentYear)
    else if '-' in date && !StartsWith(date, "20") then MonthFromParts(Split(date, '-'), currentYear)
    else if '-' in date then Some(PyPrefix(date, 7))
    else None
  }

  lemma SplitTwo(a: string, b: string, sep: char)
    requires sep !in a && sep !in b
    ensures sep in a + [sep] + b
    ensures Split(a + [sep] + b, sep) == [a, b]
  {
    assert (a + [sep] + b)[|a|] == sep;
    SplitCons(a, sep, b);
  }

  lemma SplitThree(a: string, b: string, c: string, sep: char)
    requires sep !in a && sep !in b && sep !in c
    ensures sep in a + [sep] + b + [sep] + c
    ensures Split(a + [sep] + b + [sep] + c, sep) == [a, b, c]
  {
    assert (a + [sep] + b + [sep] + c)[|a|] == sep;
    assert a + [sep] + b + [sep] + c == a + [sep] + (b + [sep] + c);
    SplitCons(a, sep, b + [sep] + c);
    SplitTwo(b, c, sep);
  }

  /** `MM/DD/YY`: a two-digit year up to 49 is read as 20YY, from 50 on as 19YY. */
  lemma ShortYearMonth(m: string, d: string, yy: string, currentYear: nat)
    requires '/' !in m && '/' !in d && '/' !in yy
    requires |yy| == 2 && AllDigits(yy)
    ensures ExtractMonth(m + "/" + d + "/" + yy, currentYear) ==
            Some((if DigitsValue(yy) <= 49 then "20" else "19") + yy + "-" + Zfill(m, 2))
  {
    SplitThree(m, d, yy, '/');
  }

  /** A two-character year that `int()` rejects makes the whole date unreadable. */
  lemma BadShortYearNoMonth(m: string, d: string, yy: string, currentYear: nat)
    requires '/' !in m && '/' !in d && '/' !in yy
    requires |yy| == 2 && PyIntTwo(yy).None?
    ensures ExtractMonth(m + "/" + d + "/" + yy, currentYear).None?
  {
    SplitThree(m, d, yy, '/');
  }

  /** `MM/DD/YYYY`: a year of any other length is taken as written. */
  lemma LongYearMonth(m: string, d: string, year: string, currentYear: nat)
    requires '/' !in m && '/' !in d && '/' !in year
    requires |year| != 2
    ensures ExtractMonth(m + "/" + d + "/" + year, currentYear) == Some(year + "-" + Zfill(m, 2))
  {
    SplitThree(m, d, year, '/');
  }

  /** `MM/DD`: the current year. */
  lemma YearlessMonth(m: string, d: string, currentYear: nat)
    requires '/' !in m && '/' !in d
    ensures ExtractMonth(m + "/" + d, currentYear) == Some(NatToString(currentYear) + "-" + Zfill(m, 2))
  {
    SplitTwo(m, d, '/');
  }

  lemma NotInThree(a: string, b: string, c: string, sep: char, x: char)
    requires x != sep && x !in a && x !in b && x !in c
    ensures x !in a + [sep] + b + [sep] + c
  {
  }

  lemma DashedPrefix(m: string, rest: string)
    requires !StartsWith(m, "20")
    ensures !StartsWith(m + "-" + rest, "20")
  {
    var s := m + "-" + rest;
    if |m| >= 2 {
      assert s[..2] == m[..2];
    } else {
      assert s[|m|] == '-';
    }
  }

  /** `MM-DD-YYYY` and `MM-DD-YY` read as their slashed forms, unless the date starts with `20`. */
  lemma DashedMonth(m: string, d: string, year: string, currentYear: nat)
    requires '/' !in m && '/' !in d && '/' !in year
    requires '-' !in m && '-' !in d && '-' !in year
    requires !StartsWith(m, "20")
    ensures ExtractMonth(m + "-" + d + "-" + year, currentYear) == ExtractMonth(m + "/" + d + "/" + year, currentYear)
  {
    SlashedParts(m, d, year, currentYear);
    DashedParts(m, d, year, currentYear);
  }

  lemma SlashedParts(m: string, d: string, year: string, currentYear: nat)
    requires '/' !in m && '/' !in d && '/' !in year
    ensures ExtractMonth(m + "/" + d + "/" + year, currentYear) == MonthFromParts([m, d, year], currentYear)
  {
    SplitThree(m, d, year, '/');
  }

  lemma DashedParts(m: string, d: string, year: string, currentYear: nat)
    requires '/' !in m && '/' !in d && '/' !in year
    requires '-' !in m && '-' !in d && '-' !in year
    requires !StartsWith(m, "20")
    ensures ExtractMonth(m + "-" + d + "-" + year, currentYear) == MonthFromParts([m, d, year], currentYear)
  {
    var dashed := m + "-" + d + "-" + year;
    SplitThree(m, d, year, '-');
    NotInThree(m, d, year, '-', '/');
    assert dashed == m + "-" + (d + "-" + year);
    DashedPrefix(m, d + "-" + year);
  }

  /** `YYYY-MM-DD`: a date with dashes that starts with `20` keeps its first seven characters. */
  lemma IsoMonth(s: string, currentYear: nat)
    requires '/' !in s && '-' in s && StartsWith(s, "20")
    ensures ExtractMonth(s, currentYear) == Some(PyPrefix(s, 7))
  {
  }

  /** Without a slash or a dash there is no month. */
  lemma NoSeparatorNoMonth(s: string, currentYear: nat)
    requires '/' !in s && '-' !in s
    ensures ExtractMonth(s, currentYear).None?
  {
  }

  /** One slash-separated piece too many (or too few) and there is no month. */
  lemma WrongPartCountNoMonth(s: string, currentYear: nat)
    requires '/' in s && |Split(s, '/')| > 3
    ensures ExtractMonth(s, currentYear).None?
  {
  }

  /** The test `filter_by_date_range` applies to one transaction. */
  predicate InMonthRange(t: Transaction, start: string, end: string, currentYear: nat) {
    var m := ExtractMonth(t.date, currentYear);
    m.Some? && m.value != [] && LexLe(start, m.value) && LexLe(m.value, end)
  }

  function InMonthRangeOf(start: string, end: string, currentYear: nat): Transaction -> bool {
    t => InMonthRange(t, start, end, currentYear)
  }

  /** The list `filter_by_date_range` returns. */
  function DateRangeFiltered(ts: seq<Transaction>, start: string, end: string, currentYear: nat): seq<Transaction> {
    if start == [] || end == [] then ts else Filter(ts, InMonthRangeOf(start, end, currentYear))
  }

  /** `filter_by_date_range`. */
  method FilterByDateRange(ts: seq<Transaction>, start: string, end: string, currentYear: nat)
    returns (filtered: seq<Transaction>)
    ensures filtered == DateRangeFiltered(ts, start, end, currentYear)
  {
    if start == [] || end == [] {
      return ts;
    }
    filtered := [];
    for i := 0 to |ts|
      invariant filtered == Filter(ts[..i], InMonthRangeOf(start, end, currentYear))
    {
      var txnMonth := ExtractMonth(ts[i].date, currentYear);
      FilterPrefix(ts, i, InMonthRangeOf(start, end, currentYear));
      if txnMonth.Some? && txnMonth.value != [] && LexLe(start, txnMonth.value) && LexLe(txnMonth.value, end) {
        filtered := filtered + [ts[i]];
      } else {
        assert filtered + [] == filtered;
      }
    }
    assert ts[..|ts|] == ts;
  }

  /**
   * With both bounds given, a transaction survives exactly when its month
   * can be read and lies between them; order is kept.
   */
  lemma DateRangeKeeps(ts: seq<Transaction>, start: string, end: string, currentYear: nat)
    requires start != [] && end != []
    ensures forall t :: t in DateRangeFiltered(ts, start, end, currentYear) <==>
              t in ts && InMonthRange(t, start, end, currentYear)
    ensures forall t :: t in ts ==>
              multiset(DateRangeFiltered(ts, start, end, currentYear))[t] ==
              (if InMonthRange(t, start, end, currentYear) then multiset(ts)[t] else 0)
    ensures IsSubsequence(DateRangeFiltered(ts, start, end, currentYear), ts)
  {
    FilterIsSubsequence(ts, InMonthRangeOf(start, end, currentYear));
    FilterCounts(ts, InMonthRangeOf(start, end, currentYear));
  }

  /** A range whose start comes after its end keeps nothing. */
  lemma {:induction false} InvertedRangeKeepsNothing(ts: seq<Transaction>, start: string, end: string, currentYear: nat)
    requires start != [] && end != [] && LexLt(end, start)
    ensures DateRangeFiltered(ts, start, end, currentYear) == []
  {
    var r := DateRangeFiltered(ts, start, end, currentYear);
    if r != [] {
      var t := r[0];
      assert t in r;
      var m := ExtractMonth(t.date, currentYear).value;
      if start == m {
        LexLtAsymmetric(end, start);
      } else if m == end {
        LexLtAsymmetric(end, start);
      } else {
        LexLtTransitive(start, m, end);
        LexLtAsymmetric(end, start);
      }
      assert false;
    }
  }

  /** Widening the range keeps everything the narrower range kept. */
  lemma WiderRangeKeepsMore(ts: seq<Transaction>, start: string, end: string, start': string, end': string, currentYear: nat)
    requires start != [] && end != [] && start' != [] && end' != []
    requires LexLe(start', start) && LexLe(end, end')
    ensures forall t :: t in DateRangeFiltered(ts, start, end, currentYear) ==> t in DateRangeFiltered(ts, start', end', currentYear)
  {
    forall t | t in DateRangeFiltered(ts, start, end, currentYear)
      ensures t in DateRangeFiltered(ts, start', end', currentYear)
    {
      var m := ExtractMonth(t.date, currentYear).value;
      LexLeTransitive(start', start, m);
      LexLeTransitive(m, end, end');
    }
  }

  lemma LexLeTransitive(a: string, b: string, c: string)
    requires LexLe(a, b) && LexLe(b, c)
    ensures LexLe(a, c)
  {
    if a != b && b != c { LexLtTransitive(a, b, c); }
  }
}
