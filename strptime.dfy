/**
 * The part of `datetime.strptime` that the pipeline uses: formats built
 * from the numeric directives `%m`, `%d`, `%Y` and `%y`, separated by one
 * literal character. `strptime` builds a regular expression from the
 * format, takes its first match and raises unless that match consumes the
 * whole string; because every directive matches only digits (and `%d` a
 * leading space), each directive then matches exactly the text between two
 * separators, so a parse is a split followed by one field check per piece.
 * Missing fields default to year 1900, month 1, day 1, and the result must
 * be a real calendar date.
 */
module Strptime {
  import opened Wrappers
  import opened Text

  /** `%m`, `%d`, `%Y` and `%y`. */
  datatype Directive = MonthNum | DayNum | FullYear | ShortYear

  /** A format such as `%m/%d/%Y`: directives joined by one literal character. */
  datatype DateFormat = DateFormat(sep: char, fields: seq<Directive>)

  /** `'%Y-%m'`. */
  const YearMonth := DateFormat('-', [FullYear, MonthNum])

  datatype Date = Date(year: int, month: int, day: int)

  predicate IsLeapYear(y: int) {
    y % 4 == 0 && (y % 100 != 0 || y % 400 == 0)
  }

  function DaysInMonth(y: int, m: int): (r: int)
    requires 1 <= m <= 12
    ensures 28 <= r <= 31
    ensures r == 29 <==> m == 2 && IsLeapYear(y)
  {
    if m == 2 then (if IsLeapYear(y) then 29 else 28)
    else if m == 4 || m == 6 || m == 9 || m == 11 then 30
    else 31
  }

  /** What `datetime(year, month, day)` accepts. */
  predicate IsCalendarDate(d: Date) {
    1 <= d.year <= 9999 && 1 <= d.month <= 12 && 1 <= d.day <= DaysInMonth(d.year, d.month)
  }

  /** `%m`, the regular expression `1[0-2]|0[1-9]|[1-9]`. */
  function MonthField(t: string): (r: Option<int>)
    ensures r.Some? <==> 1 <= |t| <= 2 && AllDigits(t) && 1 <= DigitsValue(t) <= 12
    ensures r.Some? ==> r.value == DigitsValue(t)
  {
    DigitsValueShort(t);
    if |t| == 2 && t[0] == '1' && '0' <= t[1] <= '2' then Some(10 + DigitValue(t[1]))
    else if |t| == 2 && t[0] == '0' && '1' <= t[1] <= '9' then Some(DigitValue(t[1]))
    else if |t| == 1 && '1' <= t[0] <= '9' then Some(DigitValue(t[0]))
    else None
  }

  /** `%d`, the regular expression `3[01]|[12]\d|0[1-9]|[1-9]| [1-9]`. */
  function DayField(t: string): (r: Option<int>)
    ensures r.Some? <==> || (1 <= |t| <= 2 && AllDigits(t) && 1 <= DigitsValue(t) <= 31)
                         || (|t| == 2 && t[0] == ' ' && '1' <= t[1] <= '9')
    ensures r.Some? && AllDigits(t) ==> r.value == DigitsValue(t)
    ensures r.Some? && !AllDigits(t) ==> r.value == DigitValue(t[1])
  {
    DigitsValueShort(t);
    if |t| == 2 && t[0] == '3' && '0' <= t[1] <= '1' then Some(30 + DigitValue(t[1]))
    else if |t| == 2 && '1' <= t[0] <= '2' && IsDigit(t[1]) then Some(DigitValue(t[0]) * 10 + DigitValue(t[1]))
    else if |t| == 2 && t[0] == '0' && '1' <= t[1] <= '9' then Some(DigitValue(t[1]))
    else if |t| == 1 && '1' <= t[0] <= '9' then Some(DigitValue(t[0]))
    else if |t| == 2 && t[0] == ' ' && '1' <= t[1] <= '9' then Some(DigitValue(t[1]))
    else None
  }

  /** `%Y`, the regular expression `\d\d\d\d`. */
  function FullYearField(t: string): (r: Option<int>)
    ensures r.Some? <==> |t| == 4 && AllDigits(t)
    ensures r.Some? ==> r.value == DigitsValue(t) && 0 <= r.value <= 9999
  {
    if |t| == 4 && AllDigits(t) then FourDigitsBound(t); Some(DigitsValue(t)) else None
  }

  lemma {:induction false} FourDigitsBound(t: string)
    requires AllDigits(t)
    ensures DigitsValue(t) < Pow10(|t|)
    decreases |t|
  {
    if t != [] {
      FourDigitsBound(t[..|t| - 1]);
    }
  }

  function Pow10(n: nat): (r: nat)
    ensures r >= 1
  {
    if n == 0 then 1 else 10 * Pow10(n - 1)
  }

  /** `%y`, the regular expression `\d\d`: 00-68 are 2000-2068, 69-99 are 1969-1999. */
  function ShortYearField(t: string): (r: Option<int>)
    ensures r.Some? <==> |t| == 2 && AllDigits(t)
    ensures r.Some? ==> 1969 <= r.value <= 2068 && r.value % 100 == DigitsValue(t)
  {
    if |t| == 2 && AllDigits(t) then
      DigitsValueShort(t);
      var v := DigitsValue(t);
      Some(if v <= 68 then 2000 + v else 1900 + v)
    else None
  }

  function FieldValue(f: Directive, t: string): Option<int> {
    match f
    case MonthNum => MonthField(t)
    case DayNum => DayField(t)
    case FullYear => FullYearField(t)
    case ShortYear => ShortYearField(t)
  }

  /** The fields read so far; a later directive of the same kind wins. */
  datatype Parsed = Parsed(year: Option<int>, month: Option<int>, day: Option<int>)

  const NothingParsed := Parsed(None, None, None)

  function Record(acc: Parsed, f: Directive, v: int): Parsed {
    match f
    case MonthNum => acc.(month := Some(v))
    case DayNum => acc.(day := Some(v))
    case FullYear => acc.(year := Some(v))
    case ShortYear => acc.(year := Some(v))
  }

  function ParseFields(parts: seq<string>, fields: seq<Directive>, acc: Parsed): Option<Parsed>
    requires |parts| == |fields|
    decreases |fields|
  {
    if fields == [] then Some(acc)
    else match FieldValue(fields[0], parts[0])
      case None => None
      case Some(v) => ParseFields(parts[1..], fields[1..], Record(acc, fields[0], v))
  }

  function Or(o: Option<int>, default: int): int {
    if o.Some? then o.value else default
  }

  /** The date `datetime.strptime(s, f)` returns, or None where it raises `ValueError`. */
  function Parse(s: string, f: DateFormat): (r: Option<Date>)
    ensures r.Some? ==> IsCalendarDate(r.value)
  {
    var parts := Split(s, f.sep);
    if |parts| != |f.fields| then None
    else match ParseFields(parts, f.fields, NothingParsed)
      case None => None
      case Some(p) =>
        var d := Date(Or(p.year, 1900), Or(p.month, 1), Or(p.day, 1));
        if IsCalendarDate(d) then Some(d) else None
  }

  lemma ParseCountMismatch(s: string, f: DateFormat)
    requires |Split(s, f.sep)| != |f.fields|
    ensures Parse(s, f).None?
  {
  }

  lemma ParseFirstFieldFails(s: string, f: DateFormat)
    requires |Split(s, f.sep)| == |f.fields| && f.fields != []
    requires FieldValue(f.fields[0], Split(s, f.sep)[0]).None?
    ensures Parse(s, f).None?
  {
  }

  /** Two zero-padded digits, as `strftime` writes `%m`, `%d` and `%y`. */
  function Pad2(n: nat): (r: string)
    requires n < 100
    ensures |r| == 2 && AllDigits(r) && DigitsValue(r) == n
  {
    var r := [DigitChar(n / 10), DigitChar(n % 10)];
    DigitsValueShort(r);
    r
  }

  /** Four zero-padded digits, as `strftime` writes `%Y` on this platform. */
  function Pad4(n: nat): (r: string)
    requires n < 10000
    ensures |r| == 4 && AllDigits(r) && DigitsValue(r) == n
  {
    var r := Pad2(n / 100) + Pad2(n % 100);
    assert r[..3][..2] == Pad2(n / 100);
    assert r[..2] == Pad2(n / 100);
    DigitsValueShort(Pad2(n / 100));
    assert r[..3][..2][..1][..0] == [];
    r
  }

  /** `strftime` of one directive of a calendar date. */
  function Render(d: Date, f: Directive): (r: string)
    requires IsCalendarDate(d)
    ensures AllDigits(r)
  {
    match f
    case MonthNum => Pad2(d.month)
    case DayNum => Pad2(d.day)
    case FullYear => Pad4(d.year)
    case ShortYear => Pad2(d.year % 100)
  }

  function RenderFields(d: Date, fields: seq<Directive>): (r: seq<string>)
    requires IsCalendarDate(d)
    ensures |r| == |fields|
    ensures forall i :: 0 <= i < |r| ==> r[i] == Render(d, fields[i])
    decreases |fields|
  {
    if fields == [] then [] else [Render(d, fields[0])] + RenderFields(d, fields[1..])
  }

  /** `d.strftime(f)`. */
  function Format(d: Date, f: DateFormat): string
    requires IsCalendarDate(d)
  {
    Join(RenderFields(d, f.fields), [f.sep])
  }

  /** The date a format can carry: fields it lacks take the `strptime` defaults. */
  function Defaulted(d: Date, fields: seq<Directive>): Date {
    Date(if FullYear in fields then d.year else 1900,
         if MonthNum in fields then d.month else 1,
         if DayNum in fields then d.day else 1)
  }

  lemma RenderReadsBack(d: Date, f: Directive)
    requires IsCalendarDate(d) && f != ShortYear
    ensures FieldValue(f, Render(d, f)) == Some(match f
                                              case MonthNum => d.month
                                              case DayNum => d.day
                                              case _ => d.year)
  {
  }

  lemma {:induction false} ParseRendered(d: Date, fields: seq<Directive>, acc: Parsed)
    requires IsCalendarDate(d) && ShortYear !in fields
    ensures ParseFields(RenderFields(d, fields), fields, acc) ==
            Some(Parsed(if FullYear in fields then Some(d.year) else acc.year,
                        if MonthNum in fields then Some(d.month) else acc.month,
                        if DayNum in fields then Some(d.day) else acc.day))
    decreases |fields|
  {
    if fields != [] {
      var f0, rest := fields[0], fields[1..];
      var parts := RenderFields(d, fields);
      RenderReadsBack(d, f0);
      assert parts[0] == Render(d, f0) && parts[1..] == RenderFields(d, rest);
      var v := FieldValue(f0, parts[0]).value;
      ParseRendered(d, rest, Record(acc, f0, v));
      InHeadOrTail(fields, FullYear);
      InHeadOrTail(fields, MonthNum);
      InHeadOrTail(fields, DayNum);
    }
  }

  lemma InHeadOrTail<T>(s: seq<T>, x: T)
    requires s != []
    ensures x in s <==> x == s[0] || x in s[1..]
  {
    assert s == [s[0]] + s[1..];
  }

  /**
   * Parsing what `strftime` wrote with the same format gives the date back,
   * up to the fields the format lacks; when those defaults make an invalid
   * date (February 29 read without a year), the parse fails.
   */
  lemma RoundTrip(d: Date, f: DateFormat)
    requires IsCalendarDate(d)
    requires f.fields != [] && ShortYear !in f.fields && !IsDigit(f.sep)
    ensures Parse(Format(d, f), f) ==
            (if IsCalendarDate(Defaulted(d, f.fields)) then Some(Defaulted(d, f.fields)) else None)
  {
    var parts := RenderFields(d, f.fields);
    SplitJoin(parts, f.sep);
    ParseRendered(d, f.fields, NothingParsed);
  }
}
