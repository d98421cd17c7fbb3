/**
 * The regular expressions of backend/extractors/regex_extractor.py, written
 * out as matchers: the date pattern (`re.match`, first alternative that
 * matches wins), the authoritative amount pattern (`finditer`, with `\b`
 * word boundaries), the amount-only and standalone-balance line patterns
 * (full-line matches), and `_parse_amount`. `\d` and `\w` are ASCII here.
 */
module StatementPatterns {
  import opened Wrappers
  import opened Text

  predicate IsDateSep(c: char) { c == '/' || c == '-' }

  /** `n` digits start at `p`. */
  function DigitsAt(s: string, p: nat, n: nat): (r: bool)
    ensures r <==> p + n <= |s| && AllDigits(s[p..p + n])
    decreases n
  {
    if n == 0 then p <= |s|
    else
      var b := p < |s| && IsDigit(s[p]) && DigitsAt(s, p + 1, n - 1);
      assert p + n <= |s| ==> s[p..p + n] == [s[p]] + s[p + 1..p + n];
      b
  }

  /** A `\d{1,2}` at `p` that a separator must follow: the separator's index. */
  function ShortFieldThenSep(s: string, p: nat): (r: Option<nat>)
    ensures r.Some? ==> p + 1 <= r.value <= p + 2 && r.value < |s|
                        && IsDateSep(s[r.value]) && AllDigits(s[p..(r.value)])
  {
    if p + 2 < |s| && IsDigit(s[p]) && IsDigit(s[p + 1]) && IsDateSep(s[p + 2]) then
      assert s[p..p + 2] == [s[p], s[p + 1]];
      Some(p + 2)
    else if p + 1 < |s| && IsDigit(s[p]) && IsDateSep(s[p + 1]) then
      assert s[p..p + 1] == [s[p]];
      Some(p + 1)
    else None
  }

  /** A greedy `\d{1,2}` at `p` ending the pattern: its end. */
  function ShortFieldLast(s: string, p: nat): (r: Option<nat>)
    ensures r.Some? ==> p + 1 <= r.value <= p + 2 && r.value <= |s| && AllDigits(s[p..(r.value)])
  {
    if p + 1 < |s| && IsDigit(s[p]) && IsDigit(s[p + 1]) then
      assert s[p..p + 2] == [s[p], s[p + 1]];
      Some(p + 2)
    else if p < |s| && IsDigit(s[p]) then
      assert s[p..p + 1] == [s[p]];
      Some(p + 1)
    else None
  }

  /**
   * `t` is digits, a separator, digits, a separator and digits, the three
   * digit fields having lengths in the given ranges; the separators are at
   * `a` and `b`.
   */
  predicate ThreeFields(t: string, a: nat, b: nat, lo1: nat, hi1: nat, lo2: nat, hi2: nat, lo3: nat, hi3: nat) {
    && a < b < |t| && IsDateSep(t[a]) && IsDateSep(t[b])
    && lo1 <= a <= hi1 && AllDigits(t[..a])
    && lo2 <= b - a - 1 <= hi2 && AllDigits(t[a + 1..b])
    && lo3 <= |t| - b - 1 <= hi3 && AllDigits(t[b + 1..])
  }

  /** `t` is two digit fields of one or two digits, the separator at `a`. */
  predicate TwoFields(t: string, a: nat) {
    && a < |t| && IsDateSep(t[a]) && 1 <= a <= 2 && AllDigits(t[..a])
    && 1 <= |t| - a - 1 <= 2 && AllDigits(t[a + 1..])
  }

  ghost predicate IsMonthDayYear(t: string) { exists a, b :: ThreeFields(t, a, b, 1, 2, 1, 2, 4, 4) }

  ghost predicate IsMonthDayShortYear(t: string) { exists a, b :: ThreeFields(t, a, b, 1, 2, 1, 2, 2, 2) }

  ghost predicate IsYearMonthDay(t: string) { exists a, b :: ThreeFields(t, a, b, 4, 4, 1, 2, 1, 2) }

  ghost predicate IsMonthDay(t: string) { exists a :: TwoFields(t, a) }

  /** The language of DATE_PATTERN's group: MM/DD/YYYY, MM/DD/YY, YYYY/MM/DD, MM/DD (either separator). */
  ghost predicate IsDateToken(t: string) {
    IsMonthDayYear(t) || IsMonthDayShortYear(t) || IsYearMonthDay(t) || IsMonthDay(t)
  }

  /** Three digit fields found in `s` make a three-field token of the prefix they span. */
  lemma PrefixThreeFields(s: string, n: nat, a: nat, b: nat, lo1: nat, hi1: nat, lo2: nat, hi2: nat, lo3: nat, hi3: nat)
    requires a < b < n <= |s| && IsDateSep(s[a]) && IsDateSep(s[b])
    requires lo1 <= a <= hi1 && AllDigits(s[..a])
    requires lo2 <= b - a - 1 <= hi2 && AllDigits(s[a + 1..b])
    requires lo3 <= n - b - 1 <= hi3 && AllDigits(s[b + 1..n])
    ensures ThreeFields(s[..n], a, b, lo1, hi1, lo2, hi2, lo3, hi3)
  {
    assert s[..n][..a] == s[..a];
    assert s[..n][a + 1..b] == s[a + 1..b];
    assert s[..n][b + 1..] == s[b + 1..n];
  }

  /** The first two alternatives: month and day fields, then a four- or two-digit year. */
  function MonthDayYearMatch(s: string): (r: Option<nat>)
    ensures r.Some? ==> 3 <= r.value <= |s| && (IsMonthDayYear(s[..(r.value)]) || IsMonthDayShortYear(s[..(r.value)]))
    ensures r.Some? ==> IsDigit(s[0]) && exists i :: 0 < i < r.value && IsDateSep(s[i])
  {
    match ShortFieldThenSep(s, 0)
    case None => None
    case Some(a) =>
      match ShortFieldThenSep(s, a + 1)
      case None => None
      case Some(b) =>
        if DigitsAt(s, b + 1, 4) then
          PrefixThreeFields(s, b + 5, a, b, 1, 2, 1, 2, 4, 4);
          Some(b + 5)
        else if DigitsAt(s, b + 1, 2) then
          PrefixThreeFields(s, b + 3, a, b, 1, 2, 1, 2, 2, 2);
          Some(b + 3)
        else None
  }

  /** The third alternative: a four-digit year, then month and day. */
  function YearMonthDayMatch(s: string): (r: Option<nat>)
    ensures r.Some? ==> 3 <= r.value <= |s| && IsYearMonthDay(s[..(r.value)])
    ensures r.Some? ==> IsDigit(s[0]) && exists i :: 0 < i < r.value && IsDateSep(s[i])
  {
    if DigitsAt(s, 0, 4) && 4 < |s| && IsDateSep(s[4]) then
      assert s[..4] == s[0..4];
      match ShortFieldThenSep(s, 5)
      case None => None
      case Some(b) =>
        match ShortFieldLast(s, b + 1)
        case None => None
        case Some(n) =>
          PrefixThreeFields(s, n, 4, b, 4, 4, 1, 2, 1, 2);
          Some(n)
    else None
  }

  /** The fourth alternative: month and day only. */
  function MonthDayMatch(s: string): (r: Option<nat>)
    ensures r.Some? ==> 3 <= r.value <= |s| && IsMonthDay(s[..(r.value)])
    ensures r.Some? ==> IsDigit(s[0]) && exists i :: 0 < i < r.value && IsDateSep(s[i])
  {
    match ShortFieldThenSep(s, 0)
    case None => None
    case Some(a) =>
      match ShortFieldLast(s, a + 1)
      case None => None
      case Some(n) =>
        assert TwoFields(s[..n], a) by {
          assert s[..n][..a] == s[..a];
          assert s[..n][a + 1..] == s[a + 1..n];
        }
        Some(n)
  }

  /** `DATE_PATTERN.match(s)`: the length of the date token at the start of `s`, alternatives tried in order. */
  function DateMatch(s: string): (r: Option<nat>)
    ensures r.Some? ==> 3 <= r.value <= |s| && IsDateToken(s[..(r.value)])
    ensures r.Some? ==> IsDigit(s[0]) && exists i :: 0 < i < r.value && IsDateSep(s[i])
  {
    if MonthDayYearMatch(s).Some? then MonthDayYearMatch(s)
    else if YearMonthDayMatch(s).Some? then YearMonthDayMatch(s)
    else MonthDayMatch(s)
  }

  /** Alternative `k` of DATE_PATTERN's group, counted from 0 in the order the pattern lists them. */
  ghost predicate IsDateAlternative(k: nat, t: string) {
    if k == 0 then IsMonthDayYear(t)
    else if k == 1 then IsMonthDayShortYear(t)
    else if k == 2 then IsYearMonthDay(t)
    else IsMonthDay(t)
  }

  /** Alternative `k` matches some prefix of `s`. */
  ghost predicate AlternativeMatches(s: string, k: nat) {
    exists n :: 0 <= n <= |s| && IsDateAlternative(k, s[..n])
  }

  /**
   * What `re.match` makes of DATE_PATTERN on `s`: the prefix `s[..n]` that the
   * first alternative with any match matches, and with its greedy last field
   * the longest such prefix.
   */
  ghost predicate IsRegexDateMatch(s: string, n: nat) {
    && n <= |s|
    && exists k :: 0 <= k < 4 && IsDateAlternative(k, s[..n])
                   && (forall j :: 0 <= j < k ==> !AlternativeMatches(s, j))
                   && (forall m :: n < m <= |s| ==> !IsDateAlternative(k, s[..m]))
  }

  /** A one- or two-digit field that a separator follows is read off exactly. */
  lemma ShortFieldThenSepAt(s: string, p: nat, a: nat)
    requires p < a <= p + 2 && a < |s| && IsDateSep(s[a]) && AllDigits(s[p..a])
    ensures ShortFieldThenSep(s, p) == Some(a)
  {
    assert IsDigit(s[p]) by { assert s[p] == s[p..a][0]; }
    if a == p + 2 { assert IsDigit(s[p + 1]) by { assert s[p + 1] == s[p..a][1]; } }
  }

  /** A greedy last field reads at least as far as any digit field of one or two digits there. */
  lemma ShortFieldLastAtLeast(s: string, p: nat, m: nat)
    requires p < m <= p + 2 && m <= |s| && AllDigits(s[p..m])
    ensures ShortFieldLast(s, p).Some? && ShortFieldLast(s, p).value >= m
  {
    assert IsDigit(s[p]) by { assert s[p] == s[p..m][0]; }
    if m == p + 2 { assert IsDigit(s[p + 1]) by { assert s[p + 1] == s[p..m][1]; } }
  }

  /** A three-field token at the start of `s`, read back off `s` itself. */
  lemma UnprefixThreeFields(s: string, m: nat, a: nat, b: nat, lo1: nat, hi1: nat, lo2: nat, hi2: nat, lo3: nat, hi3: nat)
    requires m <= |s| && ThreeFields(s[..m], a, b, lo1, hi1, lo2, hi2, lo3, hi3)
    ensures a < b < m && IsDateSep(s[a]) && IsDateSep(s[b])
    ensures AllDigits(s[..a]) && AllDigits(s[0..a]) && AllDigits(s[a + 1..b]) && AllDigits(s[b + 1..m])
  {
    assert s[..m][..a] == s[..a] == s[0..a];
    assert s[..m][a + 1..b] == s[a + 1..b];
    assert s[..m][b + 1..] == s[b + 1..m];
  }

  /** An MM/DD/YYYY prefix fixes both separators, and the first alternative returns it. */
  lemma MonthDayYearForced(s: string, m: nat, a: nat, b: nat)
    requires m <= |s| && ThreeFields(s[..m], a, b, 1, 2, 1, 2, 4, 4)
    ensures ShortFieldThenSep(s, 0) == Some(a) && ShortFieldThenSep(s, a + 1) == Some(b)
    ensures m == b + 5 && DigitsAt(s, b + 1, 4) && MonthDayYearMatch(s) == Some(m)
  {
    UnprefixThreeFields(s, m, a, b, 1, 2, 1, 2, 4, 4);
    ShortFieldThenSepAt(s, 0, a);
    ShortFieldThenSepAt(s, a + 1, b);
  }

  /** An MM/DD/YY prefix fixes both separators; the matcher returns it unless four year digits follow. */
  lemma MonthDayShortYearForced(s: string, m: nat, a: nat, b: nat)
    requires m <= |s| && ThreeFields(s[..m], a, b, 1, 2, 1, 2, 2, 2)
    ensures ShortFieldThenSep(s, 0) == Some(a) && ShortFieldThenSep(s, a + 1) == Some(b) && m == b + 3
    ensures MonthDayYearMatch(s) == if DigitsAt(s, b + 1, 4) then Some(b + 5) else Some(m)
  {
    UnprefixThreeFields(s, m, a, b, 1, 2, 1, 2, 2, 2);
    ShortFieldThenSepAt(s, 0, a);
    ShortFieldThenSepAt(s, a + 1, b);
  }

  /** A YYYY/MM/DD prefix: the third alternative matches, at least that far. */
  lemma YearMonthDayForced(s: string, m: nat, a: nat, b: nat)
    requires m <= |s| && ThreeFields(s[..m], a, b, 4, 4, 1, 2, 1, 2)
    ensures YearMonthDayMatch(s).Some? && YearMonthDayMatch(s).value >= m
  {
    UnprefixThreeFields(s, m, a, b, 4, 4, 1, 2, 1, 2);
    ShortFieldThenSepAt(s, 5, b);
    ShortFieldLastAtLeast(s, b + 1, m);
  }

  /** An MM/DD prefix: the fourth alternative matches, at least that far. */
  lemma MonthDayForced(s: string, m: nat, a: nat)
    requires m <= |s| && TwoFields(s[..m], a)
    ensures MonthDayMatch(s).Some? && MonthDayMatch(s).value >= m
  {
    assert s[..m][..a] == s[..a] == s[0..a];
    assert s[..m][a + 1..] == s[a + 1..m];
    ShortFieldThenSepAt(s, 0, a);
    ShortFieldLastAtLeast(s, a + 1, m);
  }

  /** Some matcher answers for every alternative that matches a prefix. */
  lemma AlternativeAnswered(s: string, k: nat, m: nat)
    requires m <= |s| && IsDateAlternative(k, s[..m])
    ensures k <= 1 ==> MonthDayYearMatch(s).Some?
    ensures k == 2 ==> YearMonthDayMatch(s).Some? && YearMonthDayMatch(s).value >= m
    ensures k >= 3 ==> MonthDayMatch(s).Some? && MonthDayMatch(s).value >= m
  {
    if k == 0 {
      var a, b :| ThreeFields(s[..m], a, b, 1, 2, 1, 2, 4, 4);
      MonthDayYearForced(s, m, a, b);
    } else if k == 1 {
      var a, b :| ThreeFields(s[..m], a, b, 1, 2, 1, 2, 2, 2);
      MonthDayShortYearForced(s, m, a, b);
    } else if k == 2 {
      var a, b :| ThreeFields(s[..m], a, b, 4, 4, 1, 2, 1, 2);
      YearMonthDayForced(s, m, a, b);
    } else {
      var a :| TwoFields(s[..m], a);
      MonthDayForced(s, m, a);
    }
  }

  /** The regex match of DATE_PATTERN, where there is one, is unique. */
  lemma RegexDateMatchUnique(s: string, n1: nat, n2: nat)
    requires IsRegexDateMatch(s, n1) && IsRegexDateMatch(s, n2)
    ensures n1 == n2
  {
    var k1 :| 0 <= k1 < 4 && IsDateAlternative(k1, s[..n1])
              && (forall j :: 0 <= j < k1 ==> !AlternativeMatches(s, j))
              && (forall m :: n1 < m <= |s| ==> !IsDateAlternative(k1, s[..m]));
    var k2 :| 0 <= k2 < 4 && IsDateAlternative(k2, s[..n2])
              && (forall j :: 0 <= j < k2 ==> !AlternativeMatches(s, j))
              && (forall m :: n2 < m <= |s| ==> !IsDateAlternative(k2, s[..m]));
    assert AlternativeMatches(s, k1) && AlternativeMatches(s, k2);
  }

  /** What DateMatch returns is the regex match. */
  lemma DateMatchSound(s: string)
    requires DateMatch(s).Some?
    ensures IsRegexDateMatch(s, DateMatch(s).value)
  {
    var n := DateMatch(s).value;
    if MonthDayYearMatch(s).Some? {
      if IsMonthDayYear(s[..n]) {
        forall m | n < m <= |s| && IsDateAlternative(0, s[..m]) ensures false {
          AlternativeAnswered(s, 0, m);
          var a, b :| ThreeFields(s[..m], a, b, 1, 2, 1, 2, 4, 4);
          MonthDayYearForced(s, m, a, b);
        }
        assert IsDateAlternative(0, s[..n]);
      } else {
        assert IsMonthDayShortYear(s[..n]);
        assert !AlternativeMatches(s, 0) by {
          forall m | 0 <= m <= |s| && IsDateAlternative(0, s[..m]) ensures false {
            var a, b :| ThreeFields(s[..m], a, b, 1, 2, 1, 2, 4, 4);
            MonthDayYearForced(s, m, a, b);
          }
        }
        forall m | n < m <= |s| && IsDateAlternative(1, s[..m]) ensures false {
          var a, b :| ThreeFields(s[..m], a, b, 1, 2, 1, 2, 2, 2);
          MonthDayShortYearForced(s, m, a, b);
        }
        assert IsDateAlternative(1, s[..n]);
      }
    } else {
      forall j, m | 0 <= j < 2 && 0 <= m <= |s| && IsDateAlternative(j, s[..m]) ensures false {
        AlternativeAnswered(s, j, m);
      }
      assert !AlternativeMatches(s, 0) && !AlternativeMatches(s, 1);
      if YearMonthDayMatch(s).Some? {
        forall m | n < m <= |s| && IsDateAlternative(2, s[..m]) ensures false {
          AlternativeAnswered(s, 2, m);
        }
        assert IsDateAlternative(2, s[..n]);
      } else {
        forall m | 0 <= m <= |s| && IsDateAlternative(2, s[..m]) ensures false {
          AlternativeAnswered(s, 2, m);
        }
        assert !AlternativeMatches(s, 2);
        forall m | n < m <= |s| && IsDateAlternative(3, s[..m]) ensures false {
          AlternativeAnswered(s, 3, m);
        }
        assert IsDateAlternative(3, s[..n]);
      }
    }
  }

  /** DateMatch is DATE_PATTERN's `re.match`: it returns `Some(n)` exactly when `s[..n]` is the regex match. */
  lemma DateMatchIsRegexMatch(s: string, n: nat)
    ensures DateMatch(s) == Some(n) <==> IsRegexDateMatch(s, n)
  {
    if DateMatch(s).Some? { DateMatchSound(s); }
    if IsRegexDateMatch(s, n) {
      var k :| 0 <= k < 4 && IsDateAlternative(k, s[..n]);
      AlternativeAnswered(s, k, n);
      DateMatchSound(s);
      RegexDateMatchUnique(s, n, DateMatch(s).value);
    }
  }

  /** DateMatch gives up exactly when no prefix of `s` is a date token. */
  lemma DateMatchNoneMeansNoDate(s: string)
    ensures DateMatch(s).None? <==> forall n :: 0 <= n <= |s| ==> !IsDateToken(s[..n])
  {
    forall n | 0 <= n <= |s| && IsDateToken(s[..n]) ensures DateMatch(s).Some? {
      if IsMonthDayYear(s[..n]) { AlternativeAnswered(s, 0, n); }
      else if IsMonthDayShortYear(s[..n]) { AlternativeAnswered(s, 1, n); }
      else if IsYearMonthDay(s[..n]) { AlternativeAnswered(s, 2, n); }
      else { AlternativeAnswered(s, 3, n); }
    }
  }

  /** The line consists of a date token and nothing else. */
  predicate IsDateOnly(line: string) {
    DateMatch(line) == Some(|line|)
  }

  // ---------------------------------------------------------------- amounts

  /** `\d{1,3}(,\d{3})*`: digits grouped by thousands. */
  predicate IsGroupedInt(t: string)
    decreases |t|
  {
    || (1 <= |t| <= 3 && AllDigits(t))
    || (|t| >= 5 && t[|t| - 4] == ',' && AllDigits(t[|t| - 3..]) && IsGroupedInt(t[..|t| - 4]))
  }

  /** `\d{1,3}(,\d{3})*\.\d{2}`: the AMOUNT_PATTERN group. */
  predicate IsDecimalAmount(t: string) {
    |t| >= 4 && t[|t| - 3] == '.' && AllDigits(t[|t| - 2..]) && IsGroupedInt(t[..|t| - 3])
  }

  /** `\d{1,3}(,\d{3})*(\.\d{2})?`: the amount-only line group. */
  predicate IsPlainAmount(t: string) {
    IsGroupedInt(t) || IsDecimalAmount(t)
  }

  /** `\b` at index `i`: exactly one of the neighbouring characters is a word character. */
  predicate BoundaryAt(s: string, i: nat)
    requires i <= |s|
  {
    (i > 0 && IsWordChar(s[i - 1])) != (i < |s| && IsWordChar(s[i]))
  }

  function DigitRunEnd(s: string, q: nat): (r: nat)
    requires q <= |s|
    ensures q <= r <= |s| && AllDigits(s[q..(r)])
    ensures r < |s| ==> !IsDigit(s[r])
    decreases |s| - q
  {
    if q == |s| || !IsDigit(s[q]) then q
    else
      var e := DigitRunEnd(s, q + 1);
      assert s[q..e] == [s[q]] + s[q + 1..e];
      e
  }

  /** The greedy `(,\d{3})*` starting at `q`: where it stops. */
  function GroupsEnd(s: string, q: nat): (r: nat)
    requires q <= |s|
    ensures q <= r <= |s|
    decreases |s| - q
  {
    if q + 3 < |s| && s[q] == ',' && DigitsAt(s, q + 1, 3) then GroupsEnd(s, q + 4) else q
  }

  lemma {:induction false} GroupsEndKeepsGrouping(s: string, p: nat, q: nat)
    requires p <= q <= |s| && IsGroupedInt(s[p..q])
    ensures IsGroupedInt(s[p..GroupsEnd(s, q)])
    decreases |s| - q
  {
    if q + 3 < |s| && s[q] == ',' && DigitsAt(s, q + 1, 3) {
      var t := s[p..q + 4];
      assert t[..|t| - 4] == s[p..q];
      assert t[|t| - 3..] == s[q + 1..q + 4];
      GroupsEndKeepsGrouping(s, p, q + 4);
    }
  }

  /** The AMOUNT_PATTERN match attempted at index `p`: its end, if it matches there. */
  function AmountAt(s: string, p: nat): (r: Option<nat>)
    requires p <= |s|
    ensures r.Some? ==> p < r.value <= |s| && BoundaryAt(s, p) && BoundaryAt(s, r.value)
                        && IsDecimalAmount(s[p..(r.value)])
  {
    if p < |s| && IsDigit(s[p]) && BoundaryAt(s, p) then
      var d := DigitRunEnd(s, p);
      if d - p > 3 then None
      else
        var g := GroupsEnd(s, d);
        if g + 2 < |s| && s[g] == '.' && IsDigit(s[g + 1]) && IsDigit(s[g + 2]) && BoundaryAt(s, g + 3) then
          GroupsEndKeepsGrouping(s, p, d);
          DecimalAmountAt(s, p, g);
          Some(g + 3)
        else None
    else None
  }

  /** A grouped integer, a point and two digits, read off `s` from `p`. */
  lemma DecimalAmountAt(s: string, p: nat, g: nat)
    requires p < g && g + 2 < |s| && IsGroupedInt(s[p..g])
    requires s[g] == '.' && IsDigit(s[g + 1]) && IsDigit(s[g + 2])
    ensures IsDecimalAmount(s[p..g + 3])
  {
    var t := s[p..g + 3];
    SliceOfSlice(s, p, g + 3, g - p);
    assert t[|t| - 2..] == [s[g + 1], s[g + 2]];
  }

  /** No AMOUNT_PATTERN match starts anywhere in `[a, b)`. */
  predicate NoMatchIn(s: string, a: nat, b: nat)
    requires a <= b <= |s|
  {
    forall q :: a <= q < b ==> AmountAt(s, q).None?
  }

  /** Every entry of `r` is a match from `p` on: it starts at or after `p`, and `AmountAt` ends it where `r` says. */
  predicate AreMatchesFrom(s: string, p: nat, r: seq<(nat, nat)>) {
    forall i :: 0 <= i < |r| ==> p <= r[i].0 < r[i].1 <= |s| && AmountAt(s, r[i].0) == Some(r[i].1)
  }

  /** The spans of `r` come in order and do not overlap. */
  predicate InOrder(r: seq<(nat, nat)>) {
    forall i, j :: 0 <= i < j < |r| ==> r[i].1 <= r[j].0
  }

  /** No match starts before the first span of `r`, between two of its spans, or after its last. */
  predicate NoMatchBetween(s: string, p: nat, r: seq<(nat, nat)>)
    requires p <= |s| && AreMatchesFrom(s, p, r) && InOrder(r)
  {
    && (r == [] ==> NoMatchIn(s, p, |s|))
    && (r != [] ==> NoMatchIn(s, p, r[0].0) && NoMatchIn(s, r[|r| - 1].1, |s|))
    && (forall i :: 0 < i < |r| ==> NoMatchIn(s, r[i - 1].1, r[i].0))
  }

  /**
   * `r` is what `finditer` yields from `p` on: real matches, in order and
   * not overlapping, and no match starts before the first one, in a gap
   * between two of them, or after the last one (the scan resumes where a
   * match ends, and one position further on where none starts).
   */
  predicate IsLeftmostScan(s: string, p: nat, r: seq<(nat, nat)>)
    requires p <= |s|
  {
    AreMatchesFrom(s, p, r) && InOrder(r) && NoMatchBetween(s, p, r)
  }

  /** `finditer`: the AMOUNT_PATTERN matches from `p` on, as (start, end). */
  function AmountMatches(s: string, p: nat): (r: seq<(nat, nat)>)
    requires p <= |s|
    ensures IsLeftmostScan(s, p, r)
    decreases |s| - p
  {
    if p >= |s| then []
    else
      match AmountAt(s, p)
      case Some(e) =>
        var rest := AmountMatches(s, e);
        ScanTakes(s, p, e, rest);
        [(p, e)] + rest
      case None =>
        var rest := AmountMatches(s, p + 1);
        ScanSkips(s, p, rest);
        rest
  }

  /** A match at `p` followed by the scan from its end is the scan from `p`. */
  lemma ScanTakes(s: string, p: nat, e: nat, rest: seq<(nat, nat)>)
    requires p < e <= |s| && AmountAt(s, p) == Some(e) && IsLeftmostScan(s, e, rest)
    ensures IsLeftmostScan(s, p, [(p, e)] + rest)
  {
    var r := [(p, e)] + rest;
    assert forall i :: 0 < i < |r| ==> r[i] == rest[i - 1];
    assert AreMatchesFrom(s, p, r);
    assert InOrder(r);
    if rest != [] {
      assert r[|r| - 1] == rest[|rest| - 1];
      assert r[1] == rest[0];
    }
    assert NoMatchBetween(s, p, r);
  }

  /** Where no match starts, the scan from the next position is the scan from `p`. */
  lemma ScanSkips(s: string, p: nat, rest: seq<(nat, nat)>)
    requires p < |s| && AmountAt(s, p).None? && IsLeftmostScan(s, p + 1, rest)
    ensures IsLeftmostScan(s, p, rest)
  {
    assert AreMatchesFrom(s, p, rest);
  }

  /** The scan is determined: any list with the `finditer` properties is `AmountMatches`. */
  lemma {:induction false} ScanUnique(s: string, p: nat, r: seq<(nat, nat)>)
    requires p <= |s| && IsLeftmostScan(s, p, r)
    ensures r == AmountMatches(s, p)
    decreases |s| - p, 1
  {
    if p >= |s| {
      ScanAtEnd(s, p, r);
    } else if AmountAt(s, p).Some? {
      ScanUniqueTake(s, p, r, AmountAt(s, p).value);
    } else {
      ScanPastEmpty(s, p, r);
      ScanUnique(s, p + 1, r);
      ScanSkipsUnfold(s, p);
    }
  }

  /** `ScanUnique` where a match starts at `p`: the match, then the scan from its end. */
  lemma {:induction false} ScanUniqueTake(s: string, p: nat, r: seq<(nat, nat)>, e: nat)
    requires p < |s| && IsLeftmostScan(s, p, r) && AmountAt(s, p) == Some(e)
    ensures r == AmountMatches(s, p)
    decreases |s| - p, 0
  {
    ScanHead(s, p, r, e);
    ScanTail(s, p, r);
    var tail := r[1..];
    ScanUnique(s, e, tail);
    ScanTakesUnfold(s, p, e);
    HeadAndTail(r);
  }

  lemma HeadAndTail<T>(r: seq<T>)
    requires r != []
    ensures r == [r[0]] + r[1..]
  {
  }

  /** The first span of `r`, or an empty span at 0 when there is none. */
  function FirstSpan(r: seq<(nat, nat)>): (nat, nat) {
    if r == [] then (0, 0) else r[0]
  }

  lemma ScanAtEnd(s: string, p: nat, r: seq<(nat, nat)>)
    requires p == |s| && AreMatchesFrom(s, p, r)
    ensures r == [] == AmountMatches(s, p)
  {
    assert r == [] || FirstSpan(r).0 < |s|;
  }

  /** A scan from a position where a match starts begins with that match. */
  lemma ScanHead(s: string, p: nat, r: seq<(nat, nat)>, e: nat)
    requires p < |s| && IsLeftmostScan(s, p, r) && AmountAt(s, p) == Some(e)
    ensures r != [] && r[0] == (p, e)
  {
    assert !NoMatchIn(s, p, |s|);
    assert r != [];
    assert !NoMatchIn(s, p, r[0].0) || r[0].0 <= p;
    assert AmountAt(s, r[0].0) == Some(r[0].1);
  }

  lemma ScanTakesUnfold(s: string, p: nat, e: nat)
    requires p < |s| && AmountAt(s, p) == Some(e)
    ensures AmountMatches(s, p) == [(p, e)] + AmountMatches(s, e)
  {
  }

  lemma ScanSkipsUnfold(s: string, p: nat)
    requires p < |s| && AmountAt(s, p).None?
    ensures AmountMatches(s, p) == AmountMatches(s, p + 1)
  {
  }

  /** A scan from a position where no match starts is also the scan from the next one. */
  lemma ScanPastEmpty(s: string, p: nat, r: seq<(nat, nat)>)
    requires p < |s| && AmountAt(s, p).None? && IsLeftmostScan(s, p, r)
    ensures IsLeftmostScan(s, p + 1, r)
  {
    assert AreMatchesFrom(s, p + 1, r) by {
      forall i | 0 <= i < |r| ensures p + 1 <= r[i].0 {
        assert AmountAt(s, r[i].0).Some?;
      }
    }
    assert NoMatchBetween(s, p + 1, r) by {
      if r == [] {
        assert NoMatchIn(s, p, |s|);
      } else {
        assert NoMatchIn(s, p, r[0].0);
      }
    }
  }

  /** Past its first match, a scan is the scan from that match's end. */
  lemma ScanTail(s: string, p: nat, r: seq<(nat, nat)>)
    requires p <= |s| && IsLeftmostScan(s, p, r) && r != []
    ensures r[0].1 <= |s| && IsLeftmostScan(s, r[0].1, r[1..])
  {
    TailAreMatches(s, p, r);
    TailInOrder(r);
    TailNoMatchBetween(s, p, r);
  }

  lemma TailAreMatches(s: string, p: nat, r: seq<(nat, nat)>)
    requires AreMatchesFrom(s, p, r) && InOrder(r) && r != []
    ensures r[0].1 <= |s| && AreMatchesFrom(s, r[0].1, r[1..])
  {
    var tail, e := r[1..], r[0].1;
    forall i | 0 <= i < |tail|
      ensures e <= tail[i].0 < tail[i].1 <= |s| && AmountAt(s, tail[i].0) == Some(tail[i].1)
    {
      assert tail[i] == r[i + 1];
      assert r[0].1 <= r[i + 1].0;
    }
  }

  lemma TailInOrder(r: seq<(nat, nat)>)
    requires InOrder(r) && r != []
    ensures InOrder(r[1..])
  {
    var tail := r[1..];
    forall i, j | 0 <= i < j < |tail| ensures tail[i].1 <= tail[j].0 {
      assert tail[i] == r[i + 1] && tail[j] == r[j + 1];
    }
  }

  lemma TailNoMatchBetween(s: string, p: nat, r: seq<(nat, nat)>)
    requires p <= |s| && IsLeftmostScan(s, p, r) && r != []
    requires r[0].1 <= |s| && AreMatchesFrom(s, r[0].1, r[1..]) && InOrder(r[1..])
    ensures NoMatchBetween(s, r[0].1, r[1..])
  {
    var tail, e := r[1..], r[0].1;
    if tail == [] {
      assert NoMatchIn(s, r[|r| - 1].1, |s|);
    } else {
      assert NoMatchIn(s, r[0].1, r[1].0);
      assert tail[0] == r[1];
      assert tail[|tail| - 1] == r[|r| - 1];
      forall i | 0 < i < |tail| ensures NoMatchIn(s, tail[i - 1].1, tail[i].0) {
        assert tail[i - 1] == r[i] && tail[i] == r[i + 1];
        assert NoMatchIn(s, r[i].1, r[i + 1].0);
      }
    }
  }

  /** An amount-shaped token spans `s[q..e]`, with a word boundary on each side. */
  predicate IsAmountToken(s: string, q: nat, e: nat) {
    q < e <= |s| && BoundaryAt(s, q) && BoundaryAt(s, e) && IsDecimalAmount(s[q..e])
  }

  /**
   * `list(AMOUNT_PATTERN.finditer(s))[-1]`: the last match of the scan, after
   * which no amount-shaped token starts; None when `s` holds no amount at all.
   */
  function LastAmount(s: string): (r: Option<(nat, nat)>)
    ensures r.None? <==> AmountMatches(s, 0) == []
    ensures r.Some? ==> r.value == AmountMatches(s, 0)[|AmountMatches(s, 0)| - 1]
    ensures r.Some? ==> IsAmountToken(s, r.value.0, r.value.1)
    ensures r.Some? ==> forall q, e :: r.value.1 <= q < e <= |s| ==> !IsAmountToken(s, q, e)
    ensures r.None? ==> forall q, e :: 0 <= q < e <= |s| ==> !IsAmountToken(s, q, e)
  {
    var ms := AmountMatches(s, 0);
    if ms == [] then
      NoAmountToken(s, 0);
      None
    else
      var last := ms[|ms| - 1];
      NoAmountToken(s, last.1);
      Some(last)
  }

  /** Where no match starts, no amount-shaped token starts either. */
  lemma NoAmountToken(s: string, p: nat)
    requires p <= |s| && NoMatchIn(s, p, |s|)
    ensures forall q, e :: p <= q < e <= |s| ==> !IsAmountToken(s, q, e)
  {
    forall q, e | p <= q < e <= |s| && IsAmountToken(s, q, e) ensures false {
      AmountAtComplete(s, q, e);
    }
  }

  /** Every match starts on a digit. */
  lemma NoDigitNoMatch(s: string, a: nat, b: nat)
    requires a <= b <= |s| && forall q :: a <= q < b ==> !IsDigit(s[q])
    ensures NoMatchIn(s, a, b)
  {
  }

  /** The amount-only line: its amount text when the whole line is one amount. */
  function AmountOnlyMatch(line: string): (r: Option<string>)
    ensures r.Some? ==> IsPlainAmount(r.value)
  {
    var t := Strip(line);
    if IsPlainAmount(t) then Some(t) else None
  }

  /** A standalone balance line: optional `$`, then one decimal amount. */
  predicate IsStandaloneAmount(line: string) {
    var t := Strip(line);
    IsDecimalAmount(t) || (|t| > 0 && t[0] == '$' && IsDecimalAmount(Strip(t[1..])))
  }

  /** `s.replace(',', '')`. */
  function RemoveCommas(s: string): (r: string)
    ensures ',' !in r
    decreases |s|
  {
    if s == [] then []
    else (if s[0] == ',' then [] else [s[0]]) + RemoveCommas(s[1..])
  }

  /** `float(t)` in cents, for plain decimal numbers with at most two decimals. */
  function DecimalCents(t: string): Option<nat>
  {
    if t != [] && AllDigits(t) then Some(DigitsValue(t) * 100)
    else if '.' in t then
      var i := IndexOf(t, '.');
      var whole := t[..i];
      var frac := t[i + 1..];
      if AllDigits(whole) && AllDigits(frac) && |frac| <= 2 && |whole| + |frac| >= 1 then
        Some(DigitsValue(whole) * 100 + DigitsValue(frac) * (if |frac| == 1 then 10 else 1))
      else None
    else None
  }

  /** `_parse_amount`: drops the commas and reads the number; a ValueError becomes Failure. */
  function ParseAmount(text: string): (r: Result<nat, string>)
  {
    match DecimalCents(RemoveCommas(text))
    case Some(c) => Success(c)
    case None => Failure("Invalid amount format: " + text)
  }

  // ------------------------------------------------ properties of the matchers

  /** `(,\d{3})*` read from the left. */
  predicate IsGroupTail(u: string)
    decreases |u|
  {
    u == [] || (|u| >= 4 && u[0] == ',' && AllDigits(u[1..4]) && IsGroupTail(u[4..]))
  }

  lemma {:induction false} GroupTailAppend(u: string, g: string)
    requires IsGroupTail(u) && |g| == 4 && g[0] == ',' && AllDigits(g[1..])
    ensures IsGroupTail(u + g)
    decreases |u|
  {
    if u == [] {
      assert (u + g)[4..] == [];
      assert (u + g)[1..4] == g[1..];
    } else {
      GroupTailAppend(u[4..], g);
      assert (u + g)[4..] == u[4..] + g;
      assert (u + g)[1..4] == u[1..4];
    }
  }

  /** A grouped integer is a run of one to three digits followed by `,ddd` groups. */
  lemma {:induction false} GroupedFromLeft(t: string)
    requires IsGroupedInt(t)
    ensures exists k :: 1 <= k <= 3 && k <= |t| && AllDigits(t[..k]) && IsGroupTail(t[k..])
    decreases |t|
  {
    if 1 <= |t| <= 3 && AllDigits(t) {
      assert t[..|t|] == t && t[|t|..] == [];
    } else {
      var init := t[..|t| - 4];
      var g := t[|t| - 4..];
      GroupedFromLeft(init);
      var k :| 1 <= k <= 3 && k <= |init| && AllDigits(init[..k]) && IsGroupTail(init[k..]);
      assert g[1..] == t[|t| - 3..];
      GroupTailAppend(init[k..], g);
      assert t[k..] == init[k..] + g;
      assert t[..k] == init[..k];
    }
  }

  lemma {:induction false} DigitRunEndAt(s: string, q: nat, stop: nat)
    requires q <= stop <= |s| && AllDigits(s[q..stop]) && (stop == |s| || !IsDigit(s[stop]))
    ensures DigitRunEnd(s, q) == stop
    decreases stop - q
  {
    if q < stop {
      assert IsDigit(s[q..stop][0]);
      assert s[q + 1..stop] == s[q..stop][1..];
      DigitRunEndAt(s, q + 1, stop);
    }
  }

  lemma {:induction false} GroupsEndAt(s: string, q: nat, m: nat)
    requires q <= m < |s| && IsGroupTail(s[q..m]) && s[m] != ','
    ensures GroupsEnd(s, q) == m
    decreases m - q
  {
    if q < m {
      var u := s[q..m];
      assert |u| >= 4 && u[0] == ',' && AllDigits(u[1..4]) && IsGroupTail(u[4..]);
      forall i | q + 1 <= i < q + 4 ensures IsDigit(s[i]) {
        assert s[i] == u[1..4][i - q - 1];
      }
      assert DigitsAt(s, q + 1, 3);
      assert u[4..] == s[q + 4..m];
      GroupsEndAt(s, q + 4, m);
    }
  }

  lemma AmountAtWhen(s: string, p: nat, d: nat, g: nat)
    requires p < |s| && IsDigit(s[p]) && BoundaryAt(s, p)
    requires DigitRunEnd(s, p) == d && d - p <= 3 && GroupsEnd(s, d) == g
    requires g + 2 < |s| && s[g] == '.' && IsDigit(s[g + 1]) && IsDigit(s[g + 2]) && BoundaryAt(s, g + 3)
    ensures AmountAt(s, p) == Some(g + 3)
  {
  }

  /** An amount token read from the left: a run of one to three digits, `,ddd` groups, a point, two digits. */
  lemma DecimalAmountShape(t: string)
    requires IsDecimalAmount(t)
    ensures 1 <= DigitRunEnd(t, 0) <= 3 && DigitRunEnd(t, 0) + 3 <= |t|
    ensures IsGroupTail(t[DigitRunEnd(t, 0)..|t| - 3])
    ensures t[|t| - 3] == '.' && IsDigit(t[|t| - 2]) && IsDigit(t[|t| - 1])
  {
    var g := t[..|t| - 3];
    assert IsDigit(t[|t| - 2..][0]) && IsDigit(t[|t| - 2..][1]);
    GroupedFromLeft(g);
    var k :| 1 <= k <= 3 && k <= |g| && AllDigits(g[..k]) && IsGroupTail(g[k..]);
    assert g[..k] == t[0..k];
    assert g[k..] == t[k..|t| - 3];
    assert !IsDigit(t[k]) by {
      if k < |g| { assert t[k] == g[k..][0]; }
    }
    DigitRunEndAt(t, 0, k);
  }

  /** The same reading of an amount token inside a longer string. */
  lemma DecimalAmountParts(s: string, p: nat, e: nat)
    requires p < e <= |s| && IsDecimalAmount(s[p..e])
    ensures p + 1 <= DigitRunEnd(s, p) <= p + 3 && DigitRunEnd(s, p) <= e - 3
    ensures IsGroupTail(s[DigitRunEnd(s, p)..e - 3])
    ensures s[e - 3] == '.' && IsDigit(s[e - 2]) && IsDigit(s[e - 1])
  {
    var t := s[p..e];
    DecimalAmountShape(t);
    var k := DigitRunEnd(t, 0);
    assert AllDigits(s[p..p + k]) by {
      SliceWithin(s, p, e, 0, k);
      assert t[0..k] == t[..k];
    }
    assert !IsDigit(s[p + k]) by { assert t[k] == s[p + k]; }
    DigitRunEndAt(s, p, p + k);
    assert s[p + k..e - 3] == t[k..|t| - 3] by { SliceWithin(s, p, e, k, |t| - 3); }
    assert t[|t| - 3] == s[e - 3] && t[|t| - 2] == s[e - 2] && t[|t| - 1] == s[e - 1];
  }

  /** Every amount-shaped token between two word boundaries is matched where it starts. */
  lemma AmountAtComplete(s: string, p: nat, e: nat)
    requires p < e <= |s| && BoundaryAt(s, p) && BoundaryAt(s, e) && IsDecimalAmount(s[p..e])
    ensures AmountAt(s, p) == Some(e)
  {
    AmountScan(s, p, e);
    AmountAtWhen(s, p, DigitRunEnd(s, p), e - 3);
  }

  /** How the scan of `AmountAt` runs over an amount token: its digit run, then its groups. */
  lemma AmountScan(s: string, p: nat, e: nat)
    requires p < e <= |s| && IsDecimalAmount(s[p..e])
    ensures p < |s| && IsDigit(s[p]) && p + 1 <= DigitRunEnd(s, p) <= p + 3 && DigitRunEnd(s, p) <= e - 3
    ensures GroupsEnd(s, DigitRunEnd(s, p)) == e - 3
    ensures s[e - 3] == '.' && IsDigit(s[e - 2]) && IsDigit(s[e - 1])
  {
    DecimalAmountParts(s, p, e);
    var d := DigitRunEnd(s, p);
    assert IsDigit(s[p]) by { assert s[p] == s[p..d][0]; }
    GroupsEndAt(s, d, e - 3);
  }

  lemma {:induction false} RemoveCommasAppend(a: string, b: string)
    ensures RemoveCommas(a + b) == RemoveCommas(a) + RemoveCommas(b)
    decreases |a|
  {
    if a != [] {
      assert (a + b)[0] == a[0];
      assert (a + b)[1..] == a[1..] + b;
      RemoveCommasAppend(a[1..], b);
      var head := if a[0] == ',' then [] else [a[0]];
      assert RemoveCommas(a + b) == head + RemoveCommas(a[1..] + b);
      assert RemoveCommas(a) == head + RemoveCommas(a[1..]);
      assert head + (RemoveCommas(a[1..]) + RemoveCommas(b)) == (head + RemoveCommas(a[1..])) + RemoveCommas(b);
    } else {
      assert a + b == b;
    }
  }

  lemma {:induction false} RemoveCommasOfDigits(t: string)
    requires AllDigits(t)
    ensures RemoveCommas(t) == t
    decreases |t|
  {
    if t != [] {
      assert IsDigit(t[0]);
      RemoveCommasOfDigits(t[1..]);
      assert t == [t[0]] + t[1..];
    }
  }

  /** Without its commas a grouped integer is a non-empty run of digits. */
  lemma {:induction false} GroupedIntDigits(t: string)
    requires IsGroupedInt(t)
    ensures RemoveCommas(t) != [] && AllDigits(RemoveCommas(t))
    decreases |t|
  {
    if 1 <= |t| <= 3 && AllDigits(t) {
      RemoveCommasOfDigits(t);
    } else {
      var init := t[..|t| - 4];
      var digits := t[|t| - 3..];
      GroupedIntDigits(init);
      assert t == init + [','] + digits;
      RemoveGroupComma(init, digits);
    }
  }

  /** Dropping the comma before a group of digits joins the digits on. */
  lemma RemoveGroupComma(init: string, digits: string)
    requires AllDigits(RemoveCommas(init)) && AllDigits(digits)
    ensures RemoveCommas(init + [','] + digits) == RemoveCommas(init) + digits
    ensures AllDigits(RemoveCommas(init) + digits)
  {
    var front := init + [','];
    RemoveCommasAppend(init, [',']);
    RemoveCommasOfChar(',');
    assert RemoveCommas(front) == RemoveCommas(init);
    RemoveCommasAppend(front, digits);
    RemoveCommasOfDigits(digits);
    AllDigitsAppend(RemoveCommas(init), digits);
  }

  lemma RemoveCommasOfChar(c: char)
    ensures RemoveCommas([c]) == if c == ',' then [] else [c]
  {
    assert [c][1..] == [];
  }

  /** `_parse_amount` reads every amount the line patterns accept, to the cent. */
  lemma {:induction false} ParseGroupedInt(t: string)
    requires IsGroupedInt(t)
    ensures AllDigits(RemoveCommas(t))
    ensures ParseAmount(t) == Success(DigitsValue(RemoveCommas(t)) * 100)
  {
    GroupedIntDigits(t);
  }

  /** `float` on digits, a point and two decimals. */
  lemma DecimalCentsOfPoint(d: string, f: string)
    requires d != [] && AllDigits(d) && |f| == 2 && AllDigits(f)
    ensures DecimalCents(d + ['.'] + f) == Some(DigitsValue(d) * 100 + DigitsValue(f))
  {
    var c := d + ['.'] + f;
    assert c[|d|] == '.';
    assert !AllDigits(c);
    assert c[..|d|] == d;
    assert '.' !in d;
    IndexOfIs(c, '.', |d|);
    assert c[|d| + 1..] == f;
    var whole, frac := c[..|d|], c[|d| + 1..];
    assert AllDigits(whole) && AllDigits(frac) && |frac| == 2;
    assert DigitsValue(whole) * 100 + DigitsValue(frac) == DigitsValue(d) * 100 + DigitsValue(f);
  }

  lemma {:induction false} ParseDecimalAmount(t: string)
    requires IsDecimalAmount(t)
    ensures AllDigits(RemoveCommas(t[..|t| - 3])) && AllDigits(t[|t| - 2..])
    ensures ParseAmount(t) == Success(DigitsValue(RemoveCommas(t[..|t| - 3])) * 100 + DigitsValue(t[|t| - 2..]))
  {
    var g, f := t[..|t| - 3], t[|t| - 2..];
    SplitAround(t, |t| - 3);
    assert t == g + ['.'] + f;
    ParsePointAmount(g, f);
  }

  /** A grouped integer, a point and two digits. */
  lemma ParsePointAmount(g: string, f: string)
    requires IsGroupedInt(g) && |f| == 2 && AllDigits(f)
    ensures AllDigits(RemoveCommas(g))
    ensures ParseAmount(g + ['.'] + f) == Success(DigitsValue(RemoveCommas(g)) * 100 + DigitsValue(f))
  {
    GroupedIntDigits(g);
    var d := RemoveCommas(g);
    RemovePointCommas(g, f);
    DecimalCentsOfPoint(d, f);
    ParseAmountOf(g + ['.'] + f, DigitsValue(d) * 100 + DigitsValue(f));
  }

  lemma ParseAmountOf(text: string, cents: nat)
    requires DecimalCents(RemoveCommas(text)) == Some(cents)
    ensures ParseAmount(text) == Success(cents)
  {
  }

  lemma RemovePointCommas(g: string, f: string)
    requires AllDigits(f)
    ensures RemoveCommas(g + ['.'] + f) == RemoveCommas(g) + ['.'] + f
  {
    RemoveCommasAppend(g + ['.'], f);
    RemoveCommasAppend(g, ['.']);
    RemoveCommasOfChar('.');
    RemoveCommasOfDigits(f);
  }

  /** Example: a thousands figure written without its comma is not an amount. */
  lemma UngroupedThousandsIsNoAmount()
    ensures AmountMatches("1200.11", 0) == []
  {
    var s := "1200.11";
    assert DigitRunEnd(s, 0) == 4;
    assert AmountAt(s, 0) == None;
    assert !BoundaryAt(s, 1) && !BoundaryAt(s, 2) && !BoundaryAt(s, 3);
    assert !IsDigit(s[4]) && !BoundaryAt(s, 6);
    assert DigitRunEnd(s, 5) == 7;
    assert AmountAt(s, 5) == None;
  }

}
