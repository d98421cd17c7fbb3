/**
 * What the statement parser guarantees about the transactions it records,
 * proved over the state functions of RegexExtractor.
 */
module ExtractorProperties {
  import opened Wrappers
  import opened Text
  import opened FinancialRules
  import opened StatementPatterns
  import opened RegexExtractor

  /** A recorded transaction: from a credit or debit section, signed accordingly, described, rendered. */
  predicate WellFormed(t: Transaction) {
    && t.txnType in {Credit, Debit}
    && SignAgrees(t.amount, t.txnType)
    && t.description != [] && IsStripped(t.description)
    && t.amountDisplay == FormatAmountDisplay(t.amount)
    && ParseDisplay(t.amountDisplay) == Some(t.amount)
  }

  predicate GoodDraft(d: Draft) {
    && d.txnType in {Credit, Debit}
    && SignAgrees(d.amount, d.txnType)
    && d.description != [] && !IsSpace(d.description[0])
  }

  /** The invariant every extractor state keeps. */
  predicate GoodView(v: ExtractorView) {
    && (forall i :: 0 <= i < |v.transactions| ==> WellFormed(v.transactions[i]))
    && (v.current.Some? ==> GoodDraft(v.current.value))
    && (v.pendingDate.Some? ==> v.pendingDate.value != [])
    && (v.pendingDate.None? ==> v.pendingDescription == [])
    && v.stats.transactionsFound == |v.transactions|
  }

  lemma InitialViewIsGood()
    ensures GoodView(InitialView)
  {
  }

  lemma FinalizedDraftIsWellFormed(d: Draft)
    requires GoodDraft(d)
    ensures WellFormed(NewTransaction(d.date, d.description, d.amount, d.txnType, d.category))
  {
  }

  lemma FinalizeCurrentIsGood(v: ExtractorView)
    requires GoodView(v)
    ensures GoodView(FinalizeCurrent(v))
  {
    if v.current.Some? {
      FinalizedDraftIsWellFormed(v.current.value);
    }
  }

  lemma CloseStackedIsGood(v: ExtractorView, amountText: string, currentYear: nat)
    requires GoodView(v) && HasPendingDate(v) && v.category.state in {Credit, Debit}
    ensures GoodView(CloseStacked(v, amountText, currentYear))
  {
    match ParseAmount(amountText)
    case Failure(_) =>
    case Success(a) =>
      var description := StackedDescription(v.pendingDescription);
      var t := NewTransaction(StackedDate(v.pendingDate.value, currentYear), description,
                              ApplySignToAmount(a, v.category.state), v.category.state, v.category.category);
      assert t.description != [];
      var w := CloseStacked(v, amountText, currentYear);
      assert w.transactions == v.transactions + [t];
  }

  /** One line of text keeps the invariant. */
  lemma ProcessLineIsGood(v: ExtractorView, raw: string, currentYear: nat)
    requires GoodView(v)
    ensures GoodView(ProcessLineView(v, raw, currentYear))
  {
    var line := Strip(raw);
    if line != [] && Lower(line) !in ColumnHeaderWords && !UpdateView(v.category, line).1 && v.category.state in {Credit, Debit} {
      ContentLineIsGood(v, line, currentYear);
    }
  }

  lemma ContentLineIsGood(v: ExtractorView, line: string, currentYear: nat)
    requires GoodView(v) && v.category.state in {Credit, Debit}
    ensures GoodView(ContentLineView(v, line, currentYear))
  {
    if IsDateOnly(line) {
    } else if AmountOnlyMatch(line).Some? && HasPendingDate(v) {
      CloseStackedIsGood(v, AmountOnlyMatch(line).value, currentYear);
    } else if HasPendingDate(v) {
    } else {
      SingleLineIsGood(v, line);
    }
  }

  lemma SingleLineIsGood(v: ExtractorView, line: string)
    requires GoodView(v) && v.category.state in {Credit, Debit}
    ensures GoodView(SingleLineView(v, line))
  {
    if IsAnchor(line) {
      FinalizeCurrentIsGood(v);
    } else if v.current.Some? && QualifiesAsContinuation(line) {
      var d := v.current.value;
      assert (d.description + " " + Strip(line))[0] == d.description[0];
    }
  }

  lemma {:induction false} ProcessLinesIsGood(v: ExtractorView, lines: seq<string>, currentYear: nat)
    requires GoodView(v)
    ensures GoodView(ProcessLines(v, lines, currentYear))
    decreases |lines|
  {
    if lines != [] {
      ProcessLinesIsGood(v, lines[..|lines| - 1], currentYear);
      var u := ProcessLines(v, lines[..|lines| - 1], currentYear);
      ProcessLineIsGood(Counted(u), lines[|lines| - 1], currentYear);
    }
  }

  /**
   * Every transaction `extract_transactions` returns comes from a credit or
   * debit section, carries that section's sign and a non-empty stripped
   * description, and its display string reads back as its amount; the
   * transaction counter equals the length of the list.
   */
  lemma ExtractKeepsInvariant(v: ExtractorView, text: string, currentYear: nat)
    requires GoodView(v)
    ensures GoodView(ExtractView(v, text, currentYear).0)
    ensures var r := ExtractView(v, text, currentYear).1;
            forall i :: 0 <= i < |r| ==> WellFormed(r[i])
  {
    if text != [] && Strip(text) != [] {
      var u := ProcessLines(v, Split(text, '\n'), currentYear);
      ProcessLinesIsGood(v, Split(text, '\n'), currentYear);
      FinalizeCurrentIsGood(u);
    }
  }

  lemma ExtractFromTextIsWellFormed(text: string, currentYear: nat)
    ensures var r := ExtractFromText(text, currentYear);
            forall i :: 0 <= i < |r| ==> WellFormed(r[i])
  {
    InitialViewIsGood();
    ExtractKeepsInvariant(InitialView, text, currentYear);
  }

  lemma StepOnlyAppends(v: ExtractorView, raw: string, currentYear: nat)
    ensures var w := StepView(v, raw, currentYear);
            |v.transactions| <= |w.transactions| && w.transactions[..|v.transactions|] == v.transactions
  {
    var u := Counted(v);
    var line := Strip(raw);
    if line != [] && Lower(line) !in ColumnHeaderWords && !UpdateView(u.category, line).1 && u.category.state in {Credit, Debit} {
      ContentLineAppends(u, line, currentYear);
    }
  }

  lemma ContentLineAppends(v: ExtractorView, line: string, currentYear: nat)
    ensures var w := ContentLineView(v, line, currentYear);
            |v.transactions| <= |w.transactions| && w.transactions[..|v.transactions|] == v.transactions
  {
    if !IsDateOnly(line) && !(AmountOnlyMatch(line).Some? && HasPendingDate(v)) && !HasPendingDate(v) {
      SingleLineAppends(v, line);
    }
  }

  lemma SingleLineAppends(v: ExtractorView, line: string)
    ensures var w := SingleLineView(v, line);
            |v.transactions| <= |w.transactions| && w.transactions[..|v.transactions|] == v.transactions
  {
    if IsAnchor(line) {
      var u := FinalizeCurrent(v);
      assert u.transactions[..|v.transactions|] == v.transactions;
    }
  }

  /** Recorded transactions are never changed or removed by later lines. */
  lemma {:induction false} ProcessLinesOnlyAppends(v: ExtractorView, lines: seq<string>, currentYear: nat)
    ensures var w := ProcessLines(v, lines, currentYear);
            |v.transactions| <= |w.transactions| && w.transactions[..|v.transactions|] == v.transactions
    decreases |lines|
  {
    if lines != [] {
      ProcessLinesOnlyAppends(v, lines[..|lines| - 1], currentYear);
      var u := ProcessLines(v, lines[..|lines| - 1], currentYear);
      var w := ProcessLines(v, lines, currentYear);
      StepOnlyAppends(u, lines[|lines| - 1], currentYear);
      assert |u.transactions| <= |w.transactions| && w.transactions[..|u.transactions|] == u.transactions;
      assert w.transactions[..|v.transactions|] == u.transactions[..|v.transactions|];
    }
  }

  /** Blank lines and column titles are only counted: everything else stays as it was. */
  lemma {:induction false} IgnoredLinesChangeNothing(v: ExtractorView, lines: seq<string>, currentYear: nat)
    requires forall i :: 0 <= i < |lines| ==> Strip(lines[i]) == [] || Lower(Strip(lines[i])) in ColumnHeaderWords
    ensures ProcessLines(v, lines, currentYear) == v.(stats := v.stats.(linesProcessed := v.stats.linesProcessed + |lines|))
    decreases |lines|
  {
    if lines != [] {
      IgnoredLinesChangeNothing(v, lines[..|lines| - 1], currentYear);
    }
  }

  /** Before the first section header nothing is recorded or started, whatever the lines say. */
  lemma {:induction false} NothingOutsideSections(v: ExtractorView, lines: seq<string>, currentYear: nat)
    requires v.category.state == Unknown && v.current == None && v.pendingDate == None && v.pendingDescription == []
    requires forall i :: 0 <= i < |lines| ==> !IsCategoryLine(Strip(lines[i]))
    ensures var w := ProcessLines(v, lines, currentYear);
            && w.transactions == v.transactions && w.current == None && w.pendingDate == None
            && w.category == v.category
            && w.stats == v.stats.(linesProcessed := v.stats.linesProcessed + |lines|)
    decreases |lines|
  {
    if lines != [] {
      NothingOutsideSections(v, lines[..|lines| - 1], currentYear);
      assert !IsCategoryLine(Strip(lines[|lines| - 1]));
    }
  }

  /** A section header drops an unfinished stacked transaction and switches the polarity. */
  lemma HeaderLineEffect(v: ExtractorView, raw: string, currentYear: nat)
    requires IsCategoryLine(raw)
    ensures var w := ProcessLineView(v, raw, currentYear);
            && w.category.state == HeaderType(raw).value
            && w.category.category == Some(Strip(raw))
            && w.pendingDate == None && w.pendingDescription == []
            && w.current == v.current && w.transactions == v.transactions
            && w.stats == v.stats.(categoryChanges := v.stats.categoryChanges + 1)
  {
    var line := Strip(raw);
    StripOfStripped(line);
    assert HeaderType(line) == HeaderType(raw);
    TitlesAreNoHeaders();
  }

  lemma TitlesAreNoHeaders()
    ensures ColumnHeaderWords * CreditHeaders == {} && ColumnHeaderWords * DebitHeaders == {}
  {
  }

  /** No word of the column-title list and no section header starts with a digit. */
  lemma DigitLineIsNoTitle(line: string)
    requires IsStripped(line) && line != [] && IsDigit(line[0])
    ensures Lower(line) !in ColumnHeaderWords && !IsCategoryLine(line)
  {
    StripOfStripped(line);
    WordsStartWithLetter();
    var key := Lower(line);
    assert key[0] == line[0];
    assert key !in ColumnHeaderWords && key !in CreditHeaders && key !in DebitHeaders;
  }

  /** Every column title and every section header starts with a lower-case letter. */
  lemma WordsStartWithLetter()
    ensures forall w :: w in ColumnHeaderWords ==> StartsWithLetter(w)
    ensures forall w :: w in CreditHeaders ==> StartsWithLetter(w)
    ensures forall w :: w in DebitHeaders ==> StartsWithLetter(w)
  {
    ColumnTitlesStartWithLetter();
    CreditHeadersStartWithLetter();
    DebitHeadersStartWithLetter();
  }

  predicate StartsWithLetter(w: string) { w != [] && 'a' <= w[0] <= 'z' }

  lemma ColumnTitlesStartWithLetter()
    ensures forall w :: w in ColumnHeaderWords ==> StartsWithLetter(w)
  {
  }

  lemma CreditHeadersStartWithLetter()
    ensures forall w :: w in CreditHeaders ==> StartsWithLetter(w)
  {
  }

  lemma DebitHeadersStartWithLetter()
    ensures forall w :: w in DebitHeaders ==> StartsWithLetter(w)
  {
  }

  lemma {:induction false} GroupedIntChars(t: string)
    requires IsGroupedInt(t)
    ensures forall i :: 0 <= i < |t| ==> IsDigit(t[i]) || t[i] == ','
    ensures t != [] && IsDigit(t[0])
    decreases |t|
  {
    if !(1 <= |t| <= 3 && AllDigits(t)) {
      var init := t[..|t| - 4];
      GroupedIntChars(init);
      assert t[0] == init[0];
      forall i | 0 <= i < |t| ensures IsDigit(t[i]) || t[i] == ',' {
        if i < |t| - 4 { assert t[i] == init[i]; }
        else if i > |t| - 4 { assert t[i] == t[|t| - 3..][i - (|t| - 3)]; }
      }
    }
  }

  /** An amount is never read as a date: it has no date separator. */
  lemma AmountIsNoDate(t: string)
    requires IsPlainAmount(t)
    ensures DateMatch(t) == None
  {
    if IsGroupedInt(t) {
      GroupedIntChars(t);
    } else {
      GroupedIntChars(t[..|t| - 3]);
      forall i | 0 <= i < |t| ensures !IsDateSep(t[i]) {
        if i < |t| - 3 { assert t[i] == t[..|t| - 3][i]; }
        else if i > |t| - 3 { assert t[i] == t[|t| - 2..][i - (|t| - 2)]; }
      }
    }
  }

  /** A line that a pending stacked transaction takes as one more description line. */
  predicate IsStackedDescriptionLine(raw: string) {
    var line := Strip(raw);
    && line != [] && Lower(line) !in ColumnHeaderWords && !IsCategoryLine(line)
    && !IsDateOnly(line) && AmountOnlyMatch(line).None?
  }

  /** A date-only line inside a section opens a stacked transaction. */
  lemma DateLineOpensStacked(v: ExtractorView, date: string, currentYear: nat)
    requires v.category.state in {Credit, Debit}
    requires IsStripped(date) && IsDateOnly(date)
    ensures StepView(v, date, currentYear) == Counted(v).(pendingDate := Some(date), pendingDescription := [])
  {
    StripOfStripped(date);
    DigitLineIsNoTitle(date);
  }

  /** While a stacked transaction is open, a description line is collected. */
  lemma PendingTakesLine(v: ExtractorView, raw: string, currentYear: nat)
    requires v.category.state in {Credit, Debit} && HasPendingDate(v)
    requires IsStackedDescriptionLine(raw)
    ensures StepView(v, raw, currentYear) == Counted(v).(pendingDescription := v.pendingDescription + [Strip(raw)])
  {
    var line := Strip(raw);
    assert UpdateView(v.category, line) == (v.category, false);
  }

  /** While a stacked transaction is open, an amount-only line closes it. */
  lemma AmountLineClosesStacked(v: ExtractorView, raw: string, currentYear: nat)
    requires v.category.state in {Credit, Debit} && HasPendingDate(v)
    requires IsPlainAmount(Strip(raw))
    ensures StepView(v, raw, currentYear) == CloseStacked(Counted(v), Strip(raw), currentYear)
  {
    var t := Strip(raw);
    AmountLineShape(t);
    assert UpdateView(v.category, t) == (v.category, false);
  }

  /** An amount line is no title, no header and no date, and the amount-only pattern takes all of it. */
  lemma AmountLineShape(t: string)
    requires IsPlainAmount(t)
    ensures Lower(t) !in ColumnHeaderWords && !IsCategoryLine(t)
    ensures !IsDateOnly(t) && AmountOnlyMatch(t) == Some(t)
  {
    LeadingDigit(t);
    StripOfStripped(t);
    AmountIsNoDate(t);
    DigitLineIsNoTitle(t);
  }

  /** An amount starts with a digit, so it is already stripped. */
  lemma LeadingDigit(t: string)
    requires IsPlainAmount(t)
    ensures t != [] && IsDigit(t[0]) && IsStripped(t)
  {
    if IsGroupedInt(t) {
      GroupedIntChars(t);
    } else {
      GroupedIntChars(t[..|t| - 3]);
      assert t[0] == t[..|t| - 3][0];
    }
  }

  lemma {:induction false} PendingCollects(v: ExtractorView, xs: seq<string>, currentYear: nat)
    requires v.category.state in {Credit, Debit} && HasPendingDate(v)
    requires forall i :: 0 <= i < |xs| ==> IsStackedDescriptionLine(xs[i])
    ensures var w := ProcessLines(v, xs, currentYear);
            && w.pendingDate == v.pendingDate
            && w.pendingDescription == v.pendingDescription + StrippedLines(xs)
            && w.transactions == v.transactions && w.current == v.current && w.category == v.category
    decreases |xs|
  {
    if xs != [] {
      var init := xs[..|xs| - 1];
      PendingCollects(v, init, currentYear);
      var u := ProcessLines(v, init, currentYear);
      PendingTakesLine(u, xs[|xs| - 1], currentYear);
      assert StrippedLines(xs) == StrippedLines(init) + [Strip(xs[|xs| - 1])];
      assert v.pendingDescription + StrippedLines(xs) == (v.pendingDescription + StrippedLines(init)) + [Strip(xs[|xs| - 1])];
    }
  }

  /** The stripped lines, in order. */
  function StrippedLines(xs: seq<string>): (r: seq<string>)
    ensures |r| == |xs| && forall i :: 0 <= i < |xs| ==> r[i] == Strip(xs[i])
    decreases |xs|
  {
    if xs == [] then [] else StrippedLines(xs[..|xs| - 1]) + [Strip(xs[|xs| - 1])]
  }

  lemma SingleLine(v: ExtractorView, line: string, currentYear: nat)
    ensures ProcessLines(v, [line], currentYear) == StepView(v, line, currentYear)
  {
    assert [line][..0] == [];
  }

  lemma StackedPrefix(v: ExtractorView, date: string, xs: seq<string>, currentYear: nat)
    requires v.category.state in {Credit, Debit}
    requires IsStripped(date) && IsDateOnly(date)
    requires forall i :: 0 <= i < |xs| ==> IsStackedDescriptionLine(xs[i])
    ensures var w := ProcessLines(v, [date] + xs, currentYear);
            && w.pendingDate == Some(date) && w.pendingDescription == StrippedLines(xs)
            && w.transactions == v.transactions && w.current == v.current && w.category == v.category
  {
    SingleLine(v, date, currentYear);
    DateLineOpensStacked(v, date, currentYear);
    var v1 := ProcessLines(v, [date], currentYear);
    PendingCollects(v1, xs, currentYear);
    ProcessLinesConcat(v, [date], xs, currentYear);
  }

  lemma StackedClose(v: ExtractorView, amount: string, currentYear: nat)
    requires v.category.state in {Credit, Debit} && HasPendingDate(v)
    requires IsPlainAmount(Strip(amount))
    ensures var w := ProcessLines(v, [amount], currentYear);
            && ParseAmount(Strip(amount)).Success?
            && w.transactions == v.transactions + [NewTransaction(
                 StackedDate(v.pendingDate.value, currentYear), StackedDescription(v.pendingDescription),
                 ApplySignToAmount(ParseAmount(Strip(amount)).value, v.category.state),
                 v.category.state, v.category.category)]
            && w.current == v.current && w.pendingDate == None && w.category == v.category
  {
    var t := Strip(amount);
    if IsGroupedInt(t) { ParseGroupedInt(t); } else { ParseDecimalAmount(t); }
    SingleLine(v, amount, currentYear);
    AmountLineClosesStacked(v, amount, currentYear);
  }

  /**
   * Stacked layout: a date-only line, description lines and an amount-only
   * line make one transaction, dated by the date line (with the current year
   * added to `MM/DD`), described by the joined lines, signed by the section.
   * An open single-line draft stays open, so it is recorded after this one.
   */
  lemma StackedTransaction(v: ExtractorView, date: string, xs: seq<string>, amount: string, currentYear: nat)
    requires v.category.state in {Credit, Debit}
    requires IsStripped(date) && IsDateOnly(date)
    requires forall i :: 0 <= i < |xs| ==> IsStackedDescriptionLine(xs[i])
    requires IsPlainAmount(Strip(amount))
    ensures var w := ProcessLines(v, [date] + xs + [amount], currentYear);
            && ParseAmount(Strip(amount)).Success?
            && w.transactions == v.transactions + [NewTransaction(
                 StackedDate(date, currentYear), StackedDescription(StrippedLines(xs)),
                 ApplySignToAmount(ParseAmount(Strip(amount)).value, v.category.state),
                 v.category.state, v.category.category)]
            && w.current == v.current && w.pendingDate == None && w.category == v.category
  {
    StackedPrefix(v, date, xs, currentYear);
    var v2 := ProcessLines(v, [date] + xs, currentYear);
    StackedClose(v2, amount, currentYear);
    ProcessLinesConcat(v, [date] + xs, [amount], currentYear);
  }

  lemma {:induction false} ProcessLinesConcat(v: ExtractorView, a: seq<string>, b: seq<string>, currentYear: nat)
    ensures ProcessLines(v, a + b, currentYear) == ProcessLines(ProcessLines(v, a, currentYear), b, currentYear)
    decreases |b|
  {
    if b == [] {
      assert a + b == a;
    } else {
      assert (a + b)[..|a + b| - 1] == a + b[..|b| - 1];
      ProcessLinesConcat(v, a, b[..|b| - 1], currentYear);
    }
  }

  /**
   * Single-line layout: an accepted anchor takes the last `finditer` match
   * after the date, after which no amount-shaped token starts, and its
   * description is the text between the date and that match.
   */
  lemma AnchorTakesLastAmount(line: string, state: TransactionType, category: Option<string>)
    requires AnchorDraft(line, state, category).Some?
    ensures var remaining := Strip(line[DateMatch(line).value..]);
            var span := LastAmount(remaining);
            && span.Some?
            && AmountMatches(remaining, 0) != []
            && span.value == AmountMatches(remaining, 0)[|AmountMatches(remaining, 0)| - 1]
            && (forall q, e :: span.value.1 <= q < e <= |remaining| ==> !IsAmountToken(remaining, q, e))
            && AnchorDraft(line, state, category).value.description == Strip(remaining[..span.value.0])
            && ParseAmount(remaining[span.value.0..span.value.1]).Success?
            && AnchorDraft(line, state, category).value.amount
               == ApplySignToAmount(ParseAmount(remaining[span.value.0..span.value.1]).value, state)
  {
  }

  /** A line that continues an open single-line transaction is appended to its description. */
  lemma ContinuationAppends(v: ExtractorView, raw: string, currentYear: nat)
    requires v.category.state in {Credit, Debit} && v.current.Some? && !HasPendingDate(v)
    requires var line := Strip(raw);
             Lower(line) !in ColumnHeaderWords && !IsDateOnly(line) && !IsAnchor(line) && QualifiesAsContinuation(line)
    ensures var w := ProcessLineView(v, raw, currentYear);
            w.current == Some(v.current.value.(description := v.current.value.description + " " + Strip(raw)))
            && w.transactions == v.transactions
            && w.stats == v.stats.(multiLineMerges := v.stats.multiLineMerges + 1)
  {
    var line := Strip(raw);
    StripOfStripped(line);
  }
}
