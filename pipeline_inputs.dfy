/**
 * `BankStatementExtractor._validate_inputs` in backend/main.py: the
 * argument checks run before anything is loaded, in their order, each
 * with its own message. Whether the PDF file exists is a parameter.
 */
module PipelineInputs {
  import opened Wrappers
  import opened Text
  import opened Ordering
  import opened Strptime
  import opened RegexExtractor
  import opened TransactionFilter

  datatype Inputs = Inputs(
    pdfPath: string,
    keywords: seq<string>,
    startMonth: string,
    endMonth: string,
    outputPath: string)

  /** `datetime.strptime(s, '%Y-%m')` does not raise. */
  predicate IsYearMonth(s: string) {
    Parse(s, YearMonth).Some?
  }

  predicate AllKeywordsNonBlank(keywords: seq<string>) {
    forall i :: 0 <= i < |keywords| ==> Strip(keywords[i]) != []
  }

  /** `_validate_inputs`: the first failing check's `ValueError` message, or Pass. */
  function ValidateInputs(i: Inputs, pdfExists: bool): Outcome<string> {
    if i.pdfPath == [] then Fail("pdf_path must be a non-empty string")
    else if !pdfExists then Fail("PDF file not found: " + i.pdfPath)
    else if i.keywords == [] then Fail("keywords must be a non-empty list")
    else if !AllKeywordsNonBlank(i.keywords) then Fail("All keywords must be non-empty strings")
    else if i.startMonth == [] then Fail("start_month must be a non-empty string (YYYY-MM)")
    else if i.endMonth == [] then Fail("end_month must be a non-empty string (YYYY-MM)")
    else if !IsYearMonth(i.startMonth) || !IsYearMonth(i.endMonth) then Fail("Dates must be in YYYY-MM format")
    else if LexLt(i.endMonth, i.startMonth) then
      Fail("start_month (" + i.startMonth + ") must be <= end_month (" + i.endMonth + ")")
    else if i.outputPath == [] then Fail("output_path must be a non-empty string")
    else if !EndsWith(i.outputPath, ".pdf") then Fail("output_path must end with .pdf")
    else Pass
  }

  /**
   * `%Y-%m` reads a four-digit year from 0001 and a month of one or two
   * digits from 1 to 12, on the two sides of the only dash.
   */
  lemma YearMonthMeans(s: string)
    ensures IsYearMonth(s) <==>
              var p := Split(s, '-');
              |p| == 2 && |p[0]| == 4 && AllDigits(p[0]) && DigitsValue(p[0]) >= 1 && MonthField(p[1]).Some?
  {
    var p := Split(s, '-');
    if |p| == 2 && FullYearField(p[0]).Some? && MonthField(p[1]).Some? {
      var y := FullYearField(p[0]).value;
      var m := MonthField(p[1]).value;
      assert ParseFields(p, YearMonth.fields, NothingParsed) == Some(Parsed(Some(y), Some(m), None));
    }
  }

  /**
   * The inputs pass exactly when: the PDF path is given and exists,
   * there is at least one keyword and none is blank, both months parse as
   * `YYYY-MM`, the start is not after the end as text, and the output path
   * ends in `.pdf`.
   */
  lemma AcceptedInputs(i: Inputs, pdfExists: bool)
    ensures ValidateInputs(i, pdfExists) == Pass <==>
              && i.pdfPath != [] && pdfExists
              && i.keywords != [] && AllKeywordsNonBlank(i.keywords)
              && IsYearMonth(i.startMonth) && IsYearMonth(i.endMonth)
              && LexLe(i.startMonth, i.endMonth)
              && EndsWith(i.outputPath, ".pdf")
  {
    if IsYearMonth(i.startMonth) && IsYearMonth(i.endMonth) {
      LexLtTotal(i.startMonth, i.endMonth);
      if LexLt(i.startMonth, i.endMonth) { LexLtAsymmetric(i.startMonth, i.endMonth); }
      if i.startMonth == i.endMonth { LexLtIrreflexive(i.startMonth); }
    }
  }

  /** A blank keyword is reported once the path checks have passed, before any month is looked at. */
  lemma BlankKeywordRejected(i: Inputs, k: nat)
    requires i.pdfPath != [] && k < |i.keywords| && Strip(i.keywords[k]) == []
    ensures ValidateInputs(i, true) == Fail("All keywords must be non-empty strings")
  {
  }

  /** A start month after the end month, both well formed, is reported with both months in the message. */
  lemma InvertedRangeRejected(i: Inputs)
    requires i.pdfPath != [] && i.keywords != [] && AllKeywordsNonBlank(i.keywords)
    requires IsYearMonth(i.startMonth) && IsYearMonth(i.endMonth) && LexLt(i.endMonth, i.startMonth)
    ensures ValidateInputs(i, true) ==
            Fail("start_month (" + i.startMonth + ") must be <= end_month (" + i.endMonth + ")")
  {
  }

  /** Every failure names the first condition, in the source's order, that does not hold. */
  lemma FirstFailureReported(i: Inputs, pdfExists: bool)
    ensures i.pdfPath == [] ==> ValidateInputs(i, pdfExists) == Fail("pdf_path must be a non-empty string")
    ensures i.pdfPath != [] && !pdfExists ==> ValidateInputs(i, pdfExists) == Fail("PDF file not found: " + i.pdfPath)
    ensures i.pdfPath != [] && pdfExists && i.keywords == [] ==>
              ValidateInputs(i, pdfExists) == Fail("keywords must be a non-empty list")
    ensures && i.pdfPath != [] && pdfExists && i.keywords != [] && AllKeywordsNonBlank(i.keywords)
            && IsYearMonth(i.startMonth) && IsYearMonth(i.endMonth) && !LexLt(i.endMonth, i.startMonth)
            && i.outputPath != [] && !EndsWith(i.outputPath, ".pdf") ==>
              ValidateInputs(i, pdfExists) == Fail("output_path must end with .pdf")
  {
  }

  // Order of digit strings and of zero-padded months.

  lemma {:induction false} DigitsValueFront(a: string)
    requires |a| >= 1 && AllDigits(a)
    ensures DigitsValue(a) == DigitValue(a[0]) * Pow10(|a| - 1) + DigitsValue(a[1..])
    decreases |a|
  {
    if |a| == 1 {
      assert a[..0] == [] && a[1..] == [];
    } else {
      var init := a[..|a| - 1];
      DigitsValueFront(init);
      assert init[1..] == a[1..][..|a| - 2];
      assert init[0] == a[0];
    }
  }

  /** For digit strings of one length, text order is numeric order. */
  lemma {:induction false} DigitsOrder(a: string, b: string)
    requires |a| == |b| && AllDigits(a) && AllDigits(b)
    ensures LexLt(a, b) <==> DigitsValue(a) < DigitsValue(b)
    ensures a == b <==> DigitsValue(a) == DigitsValue(b)
    decreases |a|
  {
    if a != [] {
      DigitsValueFront(a);
      DigitsValueFront(b);
      var p := Pow10(|a| - 1);
      var da, db := DigitValue(a[0]), DigitValue(b[0]);
      FourDigitsBound(a[1..]);
      FourDigitsBound(b[1..]);
      DigitsOrder(a[1..], b[1..]);
      if da < db {
        LeadingDigitDecides(da, db, DigitsValue(a[1..]), DigitsValue(b[1..]), p);
      } else if db < da {
        LeadingDigitDecides(db, da, DigitsValue(b[1..]), DigitsValue(a[1..]), p);
      } else {
        assert a[0] == b[0];
        assert a == [a[0]] + a[1..] && b == [b[0]] + b[1..];
      }
    }
  }

  lemma {:induction false} LeadingDigitDecides(da: nat, db: nat, ra: nat, rb: nat, p: nat)
    requires da < db && ra < p
    ensures da * p + ra < db * p + rb
    decreases db
  {
    assert db * p == (db - 1) * p + p;
    if db - 1 > da {
      LeadingDigitDecides(da, db - 1, ra, rb, p);
    }
  }

  lemma {:induction false} LexLtConcat(a: string, c: string, b: string, d: string)
    requires |a| == |b|
    ensures LexLt(a + c, b + d) <==> LexLt(a, b) || (a == b && LexLt(c, d))
    decreases |a|
  {
    if a != [] {
      assert (a + c)[1..] == a[1..] + c && (b + d)[1..] == b[1..] + d;
      LexLtConcat(a[1..], c, b[1..], d);
      assert a == [a[0]] + a[1..] && b == [b[0]] + b[1..];
    } else {
      assert a + c == c && b + d == d;
    }
  }

  /** `YYYY-MM` zero-padded, as `strftime('%Y-%m')` writes it. */
  function PaddedMonth(year: nat, month: nat): (r: string)
    requires 1 <= year <= 9999 && 1 <= month <= 12
    ensures |r| == 7
  {
    Pad4(year) + "-" + Pad2(month)
  }

  lemma PaddedMonthIsFormat(year: nat, month: nat)
    requires 1 <= year <= 9999 && 1 <= month <= 12
    ensures PaddedMonth(year, month) == Format(Date(year, month, 1), YearMonth)
  {
    var parts := RenderFields(Date(year, month, 1), YearMonth.fields);
    assert parts == [Pad4(year), Pad2(month)];
    assert parts[..1] == [Pad4(year)];
    assert Join(parts, "-") == Join(parts[..1], "-") + "-" + parts[1];
  }

  /** A padded month always passes the format check. */
  lemma PaddedMonthAccepted(year: nat, month: nat)
    requires 1 <= year <= 9999 && 1 <= month <= 12
    ensures IsYearMonth(PaddedMonth(year, month))
  {
    PaddedMonthIsFormat(year, month);
    RoundTrip(Date(year, month, 1), YearMonth);
  }

  /** Between padded months, text order is calendar order. */
  lemma PaddedOrderIsChronological(y1: nat, m1: nat, y2: nat, m2: nat)
    requires 1 <= y1 <= 9999 && 1 <= m1 <= 12 && 1 <= y2 <= 9999 && 1 <= m2 <= 12
    ensures LexLt(PaddedMonth(y1, m1), PaddedMonth(y2, m2)) <==> y1 < y2 || (y1 == y2 && m1 < m2)
  {
    LexLtConcat(Pad4(y1), "-" + Pad2(m1), Pad4(y2), "-" + Pad2(m2));
    LexLtConcat("-", Pad2(m1), "-", Pad2(m2));
    assert Pad4(y1) + "-" + Pad2(m1) == Pad4(y1) + ("-" + Pad2(m1));
    assert Pad4(y2) + "-" + Pad2(m2) == Pad4(y2) + ("-" + Pad2(m2));
    DigitsOrder(Pad4(y1), Pad4(y2));
    DigitsOrder(Pad2(m1), Pad2(m2));
  }

  /**
   * As written, `%Y-%m` also takes a one-digit month. Such a bound passes
   * validation, yet the zero-padded month `_extract_month` gives for the
   * same month sorts before it as text, so the range filter drops it.
   */
  lemma UnpaddedBoundMisordered(year: string, digit: char)
    requires |year| == 4 && AllDigits(year) && DigitsValue(year) >= 1 && '1' <= digit <= '9'
    ensures IsYearMonth(year + "-" + [digit])
    ensures LexLt(year + "-0" + [digit], year + "-" + [digit])
  {
    var s := year + "-" + [digit];
    assert '-' !in year by { assert forall j :: 0 <= j < |year| ==> IsDigit(year[j]); }
    assert s == year + ['-'] + [digit];
    SplitCons(year, '-', [digit]);
    YearMonthMeans(s);
    LexLtConcat(year, "-0" + [digit], year, "-" + [digit]);
    assert year + "-0" + [digit] == year + ("-0" + [digit]);
    assert s == year + ("-" + [digit]);
    LexLtConcat("-", "0" + [digit], "-", [digit]);
    assert "-0" + [digit] == "-" + ("0" + [digit]);
  }

  /**
   * As written, the range filter then drops every transaction of the very
   * month an accepted one-digit start names.
   */
  lemma UnpaddedStartDropsItsMonth(t: Transaction, year: string, digit: char, end: string, currentYear: nat)
    requires |year| == 4 && AllDigits(year) && DigitsValue(year) >= 1 && '1' <= digit <= '9'
    requires ExtractMonth(t.date, currentYear) == Some(year + "-0" + [digit])
    ensures IsYearMonth(year + "-" + [digit])
    ensures !InMonthRange(t, year + "-" + [digit], end, currentYear)
  {
    UnpaddedBoundMisordered(year, digit);
    LexLtAsymmetric(year + "-0" + [digit], year + "-" + [digit]);
    assert |year + "-" + [digit]| != |year + "-0" + [digit]|;
  }

  /**
   * As written, an unpadded start month before a two-digit end month in
   * the same year is rejected as coming after it: September (`-9`) is
   * refused as the start of a range ending in October (`-10`).
   */
  lemma UnpaddedRangeRejected(i: Inputs, startDigit: char, endDigit: char)
    requires i.pdfPath != [] && i.keywords != [] && AllKeywordsNonBlank(i.keywords)
    requires |i.startMonth| == 6 && |i.endMonth| == 7
    requires i.startMonth[..5] == i.endMonth[..5] && IsYearMonth(i.startMonth) && IsYearMonth(i.endMonth)
    requires i.endMonth[5] == '1' && '2' <= i.startMonth[5]
    ensures ValidateInputs(i, true) ==
            Fail("start_month (" + i.startMonth + ") must be <= end_month (" + i.endMonth + ")")
  {
    var pre := i.startMonth[..5];
    assert i.startMonth == pre + i.startMonth[5..];
    assert i.endMonth == pre + i.endMonth[5..];
    LexLtConcat(pre, i.endMonth[5..], pre, i.startMonth[5..]);
  }

  /** The evident intent: the format check takes only the zero-padded `YYYY-MM`. */
  predicate IsPaddedYearMonth(s: string) {
    IsYearMonth(s) && |s| == 7
  }

  /** `_validate_inputs` with the format check of `IsPaddedYearMonth`. */
  function ValidateInputsPadded(i: Inputs, pdfExists: bool): Outcome<string> {
    if i.pdfPath == [] then Fail("pdf_path must be a non-empty string")
    else if !pdfExists then Fail("PDF file not found: " + i.pdfPath)
    else if i.keywords == [] then Fail("keywords must be a non-empty list")
    else if !AllKeywordsNonBlank(i.keywords) then Fail("All keywords must be non-empty strings")
    else if i.startMonth == [] then Fail("start_month must be a non-empty string (YYYY-MM)")
    else if i.endMonth == [] then Fail("end_month must be a non-empty string (YYYY-MM)")
    else if !IsPaddedYearMonth(i.startMonth) || !IsPaddedYearMonth(i.endMonth) then Fail("Dates must be in YYYY-MM format")
    else if LexLt(i.endMonth, i.startMonth) then
      Fail("start_month (" + i.startMonth + ") must be <= end_month (" + i.endMonth + ")")
    else if i.outputPath == [] then Fail("output_path must be a non-empty string")
    else if !EndsWith(i.outputPath, ".pdf") then Fail("output_path must end with .pdf")
    else Pass
  }

  /** A padded, accepted month is the padded rendering of the month it names. */
  lemma {:induction false} PaddedYearMonthIsPadded(s: string)
    requires IsPaddedYearMonth(s)
    ensures var d := Parse(s, YearMonth).value; s == PaddedMonth(d.year, d.month)
  {
    var p := Split(s, '-');
    YearMonthMeans(s);
    JoinSplit(s, '-');
    assert s == p[0] + "-" + p[1] by {
      assert p[..1] == [p[0]];
    }
    var y, m := DigitsValue(p[0]), DigitsValue(p[1]);
    assert ParseFields(p, YearMonth.fields, NothingParsed) == Some(Parsed(Some(y), Some(m), None));
    assert FullYearField(p[0]).Some?;
    DigitsOrder(p[0], Pad4(y));
    DigitsOrder(p[1], Pad2(m));
  }

  /** Calendar order on (year, month). */
  predicate MonthLe(y1: int, m1: int, y2: int, m2: int) {
    y1 < y2 || (y1 == y2 && m1 <= m2)
  }

  lemma PaddedMonthLe(y1: nat, m1: nat, y2: nat, m2: nat)
    requires 1 <= y1 <= 9999 && 1 <= m1 <= 12 && 1 <= y2 <= 9999 && 1 <= m2 <= 12
    ensures LexLe(PaddedMonth(y1, m1), PaddedMonth(y2, m2)) <==> MonthLe(y1, m1, y2, m2)
  {
    PaddedOrderIsChronological(y1, m1, y2, m2);
    PaddedOrderIsChronological(y2, m2, y1, m1);
    if PaddedMonth(y1, m1) == PaddedMonth(y2, m2) {
      LexLtIrreflexive(PaddedMonth(y1, m1));
    }
  }

  /**
   * With the padded check, a passing range is a calendar range: a padded
   * month passes the filter's comparison exactly when it lies between the
   * two bounds in the calendar.
   */
  lemma PaddedBoundsAreChronological(i: Inputs, pdfExists: bool, year: nat, month: nat)
    requires ValidateInputsPadded(i, pdfExists) == Pass
    requires 1 <= year <= 9999 && 1 <= month <= 12
    ensures var s := Parse(i.startMonth, YearMonth).value;
            var e := Parse(i.endMonth, YearMonth).value;
            var m := PaddedMonth(year, month);
            MonthLe(s.year, s.month, e.year, e.month) &&
            ((LexLe(i.startMonth, m) && LexLe(m, i.endMonth)) <==>
               (MonthLe(s.year, s.month, year, month) && MonthLe(year, month, e.year, e.month)))
  {
    var s := Parse(i.startMonth, YearMonth).value;
    var e := Parse(i.endMonth, YearMonth).value;
    PaddedYearMonthIsPadded(i.startMonth);
    PaddedYearMonthIsPadded(i.endMonth);
    PaddedMonthLe(s.year, s.month, year, month);
    PaddedMonthLe(year, month, e.year, e.month);
    PaddedMonthLe(s.year, s.month, e.year, e.month);
    LexLtTotal(i.startMonth, i.endMonth);
  }

  /** The padded check refuses exactly the one-digit months that the as-written check lets through. */
  lemma PaddedRejectsUnpadded(i: Inputs, pdfExists: bool)
    requires i.pdfPath != [] && pdfExists && i.keywords != [] && AllKeywordsNonBlank(i.keywords)
    requires IsYearMonth(i.startMonth) && |i.startMonth| == 6 && i.endMonth != []
    ensures ValidateInputsPadded(i, pdfExists) == Fail("Dates must be in YYYY-MM format")
  {
  }
}
