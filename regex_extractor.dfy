/**
 * The line-by-line statement parser of backend/extractors/regex_extractor.py.
 *
 * Two layouts are recognised. A stacked transaction is a date-only line,
 * any number of description lines and an amount-only line; it is built in
 * `pendingDate`/`pendingDescription`. A single-line transaction is an
 * anchor line (a date, a description, an amount) followed by continuation
 * lines; it is built in `current`. Lines are only read while the
 * `CategoryState` knows whether the section lists credits or debits.
 *
 * `ProcessLineView` and `ExtractView` say what one line and one call do to
 * the extractor's observable state; the class `TransactionExtractor` does
 * it in place and is proved to agree with them.
 */
module RegexExtractor {
  import opened Wrappers
  import opened Text
  import opened FinancialRules
  import opened StatementPatterns

  /** A finished transaction: the `Transaction` object. */
  datatype Transaction = Transaction(
    date: string,
    description: string,
    amount: int,
    amountDisplay: string,
    txnType: TransactionType,
    category: Option<string>)

  /** The `Transaction` constructor: strips the description and renders the amount. */
  function NewTransaction(date: string, description: string, amount: int, t: TransactionType, category: Option<string>): (r: Transaction)
    ensures r.date == date && r.amount == amount && r.txnType == t && r.category == category
    ensures IsStripped(r.description) && |r.description| <= |description|
    ensures r.amountDisplay == FormatAmountDisplay(amount) && ParseDisplay(r.amountDisplay) == Some(amount)
  {
    DisplayRoundTrip(amount);
    Transaction(date, Strip(description), amount, FormatAmountDisplay(amount), t, category)
  }

  /** The `current_transaction` dict of a single-line transaction being built. */
  datatype Draft = Draft(date: string, description: string, amount: int, txnType: TransactionType, category: Option<string>)

  datatype ExtractionStats = ExtractionStats(
    linesProcessed: nat,
    categoryChanges: nat,
    transactionsFound: nat,
    multiLineMerges: nat)

  const InitialStats := ExtractionStats(0, 0, 0, 0)

  /** Everything an extractor holds. */
  datatype ExtractorView = ExtractorView(
    category: CategoryView,
    transactions: seq<Transaction>,
    current: Option<Draft>,
    pendingDate: Option<string>,
    pendingDescription: seq<string>,
    stats: ExtractionStats)

  const InitialView := ExtractorView(InitialCategoryView, [], None, None, [], InitialStats)

  /** Table column titles that are skipped outright (compared lower-cased). */
  const ColumnHeaderWords: set<string> := {"date", "description", "amount", "transaction", "details", "debit", "credit"}

  /** Words that mark an anchor's description as a total or balance line. */
  const SkipKeywords: seq<string> := [
    "total", "balance", "subtotal", "page total", "grand total",
    "ending balance", "beginning balance", "current balance",
    "daily balance", "running balance"]

  /** Words that end a multi-line description (footers, summaries, section titles). */
  const StopKeywords: seq<string> := [
    "total", "subtotal", "balance", "account #", "account number",
    "page", "continued", "security", "for information", "for questions",
    "service fees", "interest earned", "deposits", "withdrawals",
    "beginning balance", "ending balance", "daily balance",
    "year-to-date", "previous balance", "new balance",
    "please see", "visit us", "call us", "contact us",
    "business purposes", "check your", "account security"]

  /** The placeholder for a stacked transaction without description lines. */
  const NoDescription := "[No description]"

  /** Python truthiness of `pending_date`. */
  predicate HasPendingDate(v: ExtractorView) {
    v.pendingDate.Some? && v.pendingDate.value != []
  }

  /** `_is_transaction_anchor`: a date at the start and an amount somewhere on the line. */
  predicate IsAnchor(line: string) {
    DateMatch(line).Some? && AmountMatches(line, 0) != []
  }

  /** `re.search(r'[a-zA-Z]', line)`. */
  predicate HasAsciiLetter(line: string) {
    exists i :: 0 <= i < |line| && IsAsciiLetter(line[i])
  }

  /** The continuation test gets as far as `update_state(line)`. */
  predicate ReachesHeaderTest(line: string) {
    Strip(line) != [] && DateMatch(line).None?
  }

  /** `_is_continuation_line`. */
  predicate QualifiesAsContinuation(line: string) {
    && ReachesHeaderTest(line)
    && !IsCategoryLine(line)
    && !IsStandaloneAmount(line)
    && !ContainsAny(Lower(line), StopKeywords)
    && HasAsciiLetter(line)
    && (IsSpace(line[0]) || IsWordChar(line[0]))
  }

  /** `_finalize_transaction`: the draft, if any, becomes a transaction. */
  function FinalizeCurrent(v: ExtractorView): (r: ExtractorView)
    ensures r.current == None
    ensures r.category == v.category && r.pendingDate == v.pendingDate && r.pendingDescription == v.pendingDescription
    ensures v.current == None ==> r == v
    ensures v.current.Some? ==>
              var d := v.current.value;
              && r.transactions == v.transactions + [NewTransaction(d.date, d.description, d.amount, d.txnType, d.category)]
              && r.stats == v.stats.(transactionsFound := v.stats.transactionsFound + 1)
  {
    match v.current
    case None => v
    case Some(d) =>
      v.(transactions := v.transactions + [NewTransaction(d.date, d.description, d.amount, d.txnType, d.category)],
         stats := v.stats.(transactionsFound := v.stats.transactionsFound + 1),
         current := None)
  }

  /** `_finalize_pending_transaction`: an unfinished stacked transaction is dropped. */
  function FinalizePending(v: ExtractorView): (r: ExtractorView)
    ensures r.pendingDate == None && r.pendingDescription == []
    ensures r.transactions == v.transactions && r.current == v.current && r.stats == v.stats && r.category == v.category
  {
    v.(pendingDate := None, pendingDescription := [])
  }

  /** `_append_to_description`. */
  function AppendToDescription(v: ExtractorView, line: string): (r: ExtractorView)
    ensures v.current.None? ==> r == v
    ensures v.current.Some? ==>
              && r.current == Some(v.current.value.(description := v.current.value.description + " " + Strip(line)))
              && r.stats == v.stats.(multiLineMerges := v.stats.multiLineMerges + 1)
              && r.transactions == v.transactions && r.category == v.category
              && r.pendingDate == v.pendingDate && r.pendingDescription == v.pendingDescription
  {
    match v.current
    case None => v
    case Some(d) =>
      v.(current := Some(d.(description := d.description + " " + Strip(line))),
         stats := v.stats.(multiLineMerges := v.stats.multiLineMerges + 1))
  }

  /** The date a stacked transaction is stored under: `MM/DD` gets the current year. */
  function StackedDate(pendingDate: string, currentYear: nat): string {
    if |Split(pendingDate, '/')| == 2 then pendingDate + "/" + NatToString(currentYear) else pendingDate
  }

  /** The description of a stacked transaction. */
  function StackedDescription(parts: seq<string>): (r: string)
    ensures r != []
  {
    var joined := Strip(Join(parts, " "));
    if joined == [] then NoDescription else joined
  }

  /**
   * The amount-only line that completes a stacked transaction: one more
   * transaction when the amount parses, none otherwise; the pending parts are
   * cleared either way. What the new transaction holds is stated by
   * `ExtractorProperties.StackedClose`.
   */
  function CloseStacked(v: ExtractorView, amountText: string, currentYear: nat): (r: ExtractorView)
    requires HasPendingDate(v)
    ensures r.pendingDate == None && r.pendingDescription == []
    ensures r.current == v.current && r.category == v.category
    ensures ParseAmount(amountText).Failure? ==> r.transactions == v.transactions
    ensures ParseAmount(amountText).Success? ==>
              |r.transactions| == |v.transactions| + 1 && r.transactions[..|v.transactions|] == v.transactions
  {
    match ParseAmount(amountText)
    case Failure(_) => v.(pendingDate := None, pendingDescription := [])
    case Success(a) =>
      var state := v.category.state;
      var t := NewTransaction(StackedDate(v.pendingDate.value, currentYear), StackedDescription(v.pendingDescription),
                              ApplySignToAmount(a, state), state, v.category.category);
      v.(transactions := v.transactions + [t],
         stats := v.stats.(transactionsFound := v.stats.transactionsFound + 1),
         pendingDate := None, pendingDescription := [])
  }

  /**
   * What `_parse_transaction_anchor` reads off an anchor line, or None where
   * it gives up: the date, the last amount after it, and the text between
   * them as description.
   */
  function AnchorDraft(line: string, state: TransactionType, category: Option<string>): (r: Option<Draft>)
    ensures r.Some? ==> && DateMatch(line).Some? && r.value.date == line[..DateMatch(line).value]
                        && IsDateToken(r.value.date)
                        && r.value.txnType == state && r.value.category == category
                        && IsStripped(r.value.description) && |r.value.description| >= 3
                        && !ContainsAny(Lower(r.value.description), SkipKeywords)
                        && SignAgrees(r.value.amount, state)
  {
    match DateMatch(line)
    case None => None
    case Some(n) =>
      var dateText := line[..n];
      var remaining := Strip(line[n..]);
      if remaining == [] then None
      else
        match LastAmount(remaining)
        case None => None
        case Some(last) =>
          match ParseAmount(remaining[last.0..last.1])
          case Failure(_) => None
          case Success(a) =>
            var description := Strip(remaining[..last.0]);
            if |description| < 3 || ContainsAny(Lower(description), SkipKeywords) then None
            else Some(Draft(dateText, description, ApplySignToAmount(a, state), state, category))
  }

  /** Every skip keyword holds the letter l, so a description without one is never taken for a total or balance. */
  lemma NoLetterLIsNeverSkipped(d: string)
    requires 'l' !in d && 'L' !in d
    ensures !ContainsAny(Lower(d), SkipKeywords)
  {
    assert 'l' !in Lower(d);
    forall i | 0 <= i < |SkipKeywords| && Contains(Lower(d), SkipKeywords[i]) ensures false {
      assert 'l' in SkipKeywords[i];
      ContainsChar(Lower(d), SkipKeywords[i], 'l');
    }
  }

  /** The anchor parse, step by step: the draft that comes out once each step is known. */
  lemma AnchorDraftOf(line: string, state: TransactionType, category: Option<string>,
                      n: nat, rest: string, start: nat, end: nat, cents: nat, description: string)
    requires DateMatch(line) == Some(n) && Strip(line[n..]) == rest && rest != []
    requires LastAmount(rest) == Some((start, end)) && ParseAmount(rest[start..end]) == Success(cents)
    requires Strip(rest[..start]) == description && |description| >= 3
    requires !ContainsAny(Lower(description), SkipKeywords)
    ensures AnchorDraft(line, state, category)
            == Some(Draft(line[..n], description, ApplySignToAmount(cents, state), state, category))
  {
  }

  /** `_parse_transaction_anchor`: an accepted anchor becomes the draft; otherwise nothing changes. */
  function ParseAnchor(v: ExtractorView, line: string): (r: ExtractorView)
    ensures AnchorDraft(line, v.category.state, v.category.category).None? ==> r == v
    ensures AnchorDraft(line, v.category.state, v.category.category).Some? ==>
              r == v.(current := AnchorDraft(line, v.category.state, v.category.category))
  {
    match AnchorDraft(line, v.category.state, v.category.category)
    case None => v
    case Some(d) => v.(current := Some(d))
  }

  /** `_process_line`: the state after one line of statement text (`datetime.now().year` is `currentYear`). */
  function ProcessLineView(v: ExtractorView, raw: string, currentYear: nat): ExtractorView
  {
    var line := Strip(raw);
    if line == [] || Lower(line) in ColumnHeaderWords then v
    else
      var (category, changed) := UpdateView(v.category, line);
      if changed then
        FinalizePending(v.(category := category, stats := v.stats.(categoryChanges := v.stats.categoryChanges + 1)))
      else if v.category.state !in {Credit, Debit} then v
      else ContentLineView(v, line, currentYear)
  }

  /** The rest of `_process_line`, for a line that is not a header in a section of known polarity. */
  function ContentLineView(v: ExtractorView, line: string, currentYear: nat): ExtractorView
  {
    if IsDateOnly(line) then
      FinalizePending(v).(pendingDate := Some(line), pendingDescription := [])
    else if AmountOnlyMatch(line).Some? && HasPendingDate(v) then
      CloseStacked(v, AmountOnlyMatch(line).value, currentYear)
    else if HasPendingDate(v) then
      v.(pendingDescription := v.pendingDescription + [line])
    else SingleLineView(v, line)
  }

  /** The single-line format: an anchor opens a draft, a continuation line extends it. */
  function SingleLineView(v: ExtractorView, line: string): ExtractorView
  {
    if IsAnchor(line) then
      ParseAnchor(FinalizeCurrent(v), line)
    else if v.current.Some? && QualifiesAsContinuation(line) then
      AppendToDescription(v, line)
    else v
  }

  /** `self.stats["lines_processed"] += 1`. */
  function Counted(v: ExtractorView): ExtractorView {
    v.(stats := v.stats.(linesProcessed := v.stats.linesProcessed + 1))
  }

  /** One iteration of the loop in `extract_transactions`. */
  function StepView(v: ExtractorView, line: string, currentYear: nat): ExtractorView
  {
    ProcessLineView(Counted(v), line, currentYear)
  }

  /** The loop of `extract_transactions` over `lines`. */
  function ProcessLines(v: ExtractorView, lines: seq<string>, currentYear: nat): ExtractorView
    decreases |lines|
  {
    if lines == [] then v
    else StepView(ProcessLines(v, lines[..|lines| - 1], currentYear), lines[|lines| - 1], currentYear)
  }

  /** `extract_transactions(text)`: the new state and the list returned. */
  function ExtractView(v: ExtractorView, text: string, currentYear: nat): (r: (ExtractorView, seq<Transaction>))
    ensures text == [] || Strip(text) == [] ==> r == (v, [])
    ensures text != [] && Strip(text) != [] ==> r.1 == r.0.transactions
    ensures text != [] && Strip(text) != [] ==>
              var u := ProcessLines(v, Split(text, '\n'), currentYear);
              && r.1 == u.transactions + (if u.current.Some? then [NewTransaction(u.current.value.date, u.current.value.description,
                                                                                   u.current.value.amount, u.current.value.txnType,
                                                                                   u.current.value.category)]
                                          else [])
              && r.0.current == None && r.0.pendingDate == None && r.0.pendingDescription == []
  {
    if text == [] || Strip(text) == [] then (v, [])
    else
      var w := FinalizePending(FinalizeCurrent(ProcessLines(v, Split(text, '\n'), currentYear)));
      (w, w.transactions)
  }

  /** `extract_transactions_from_text`: a fresh extractor over the whole text. */
  function ExtractFromText(text: string, currentYear: nat): seq<Transaction>
  {
    ExtractView(InitialView, text, currentYear).1
  }

  class TransactionExtractor {
    const categoryState: CategoryState
    var transactions: seq<Transaction>
    var currentTransaction: Option<Draft>
    var pendingDate: Option<string>
    var pendingDescription: seq<string>
    var stats: ExtractionStats

    function View(): ExtractorView
      reads this, categoryState
    {
      ExtractorView(categoryState.View(), transactions, currentTransaction, pendingDate, pendingDescription, stats)
    }

    constructor ()
      ensures View() == InitialView
      ensures fresh(categoryState)
    {
      categoryState := new CategoryState();
      transactions := [];
      currentTransaction := None;
      pendingDate := None;
      pendingDescription := [];
      stats := InitialStats;
    }

    /** `get_stats`. */
    function GetStats(): (r: ExtractionStats)
      reads this
      ensures r == View().stats
    {
      stats
    }

    method FinalizeTransaction()
      modifies this
      ensures View() == FinalizeCurrent(old(View()))
    {
      if currentTransaction.None? {
        return;
      }
      var d := currentTransaction.value;
      var txn := NewTransaction(d.date, d.description, d.amount, d.txnType, d.category);
      transactions := transactions + [txn];
      stats := stats.(transactionsFound := stats.transactionsFound + 1);
      currentTransaction := None;
    }

    method FinalizePendingTransaction()
      modifies this
      ensures View() == FinalizePending(old(View()))
    {
      pendingDate := None;
      pendingDescription := [];
    }

    method AppendLineToDescription(line: string)
      modifies this
      ensures View() == AppendToDescription(old(View()), line)
    {
      if currentTransaction.Some? {
        var d := currentTransaction.value;
        currentTransaction := Some(d.(description := d.description + " " + Strip(line)));
        stats := stats.(multiLineMerges := stats.multiLineMerges + 1);
      }
    }

    method ParseTransactionAnchor(line: string)
      modifies this
      ensures View() == ParseAnchor(old(View()), line)
    {
      var dateMatch := DateMatch(line);
      if dateMatch.None? {
        return;
      }
      var dateText := line[..dateMatch.value];
      var remaining := Strip(line[dateMatch.value..]);
      if remaining == [] {
        return;
      }
      var lastAmount := LastAmount(remaining);
      if lastAmount.None? {
        return;
      }
      var last := lastAmount.value;
      var parsed := ParseAmount(remaining[last.0..last.1]);
      if parsed.Failure? {
        return;
      }
      var description := Strip(remaining[..last.0]);
      if |description| < 3 || ContainsAny(Lower(description), SkipKeywords) {
        return;
      }
      var state := categoryState.GetState();
      currentTransaction := Some(Draft(dateText, description, ApplySignToAmount(parsed.value, state), state, categoryState.GetCategory()));
    }

    /** `_is_continuation_line`; its header test may record a header in the category state. */
    method IsContinuationLine(line: string) returns (r: bool)
      modifies categoryState
      ensures r == QualifiesAsContinuation(line)
      ensures categoryState.View() == if ReachesHeaderTest(line) then UpdateView(old(categoryState.View()), line).0
                                      else old(categoryState.View())
    {
      if line == [] || Strip(line) == [] {
        return false;
      }
      if DateMatch(line).Some? {
        return false;
      }
      var header := categoryState.UpdateState(line);
      if header {
        return false;
      }
      if IsStandaloneAmount(line) {
        return false;
      }
      if ContainsAny(Lower(line), StopKeywords) {
        return false;
      }
      if !HasAsciiLetter(line) {
        return false;
      }
      return IsSpace(line[0]) || IsWordChar(line[0]);
    }

    /** `_process_line`. */
    method ProcessLine(raw: string, currentYear: nat)
      modifies this, categoryState
      ensures View() == ProcessLineView(old(View()), raw, currentYear)
    {
      var line := Strip(raw);
      if line == [] || Lower(line) in ColumnHeaderWords {
        return;
      }
      ghost var before := View();
      var changed := categoryState.UpdateState(line);
      if changed {
        stats := stats.(categoryChanges := stats.categoryChanges + 1);
        FinalizePendingTransaction();
        return;
      }
      assert categoryState.View() == before.category;
      if !categoryState.IsValidState() {
        return;
      }
      ProcessContentLine(line, currentYear);
    }

    method ProcessContentLine(line: string, currentYear: nat)
      requires !IsCategoryLine(line)
      modifies this, categoryState
      ensures View() == ContentLineView(old(View()), line, currentYear)
    {
      if IsDateOnly(line) {
        FinalizePendingTransaction();
        pendingDate := Some(line);
        pendingDescription := [];
        return;
      }
      var amountOnly := AmountOnlyMatch(line);
      var hasPending := pendingDate.Some? && pendingDate.value != [];
      if amountOnly.Some? && hasPending {
        CloseStackedTransaction(amountOnly.value, currentYear);
        return;
      }
      if hasPending {
        pendingDescription := pendingDescription + [line];
        return;
      }
      ProcessSingleLine(line);
    }

    /** The amount-only line after a pending date: the stacked transaction is recorded if its amount parses. */
    method CloseStackedTransaction(amountText: string, currentYear: nat)
      requires HasPendingDate(View())
      modifies this
      ensures View() == CloseStacked(old(View()), amountText, currentYear)
    {
      var parsed := ParseAmount(amountText);
      if parsed.Success? {
        var state := categoryState.currentState;
        var txn := NewTransaction(StackedDate(pendingDate.value, currentYear), StackedDescription(pendingDescription),
                                  ApplySignToAmount(parsed.value, state), state, categoryState.currentCategory);
        transactions := transactions + [txn];
        stats := stats.(transactionsFound := stats.transactionsFound + 1);
      }
      pendingDate := None;
      pendingDescription := [];
    }

    method ProcessSingleLine(line: string)
      requires !IsCategoryLine(line)
      modifies this, categoryState
      ensures View() == SingleLineView(old(View()), line)
    {
      ghost var before := View();
      if IsAnchor(line) {
        if currentTransaction.Some? {
          FinalizeTransaction();
        }
        ParseTransactionAnchor(line);
      } else if currentTransaction.Some? {
        var continues := IsContinuationLine(line);
        assert categoryState.View() == before.category;
        if continues {
          AppendLineToDescription(line);
        }
      }
    }

    /** `extract_transactions`: the list it returns is the extractor's whole list. */
    method ExtractTransactions(text: string, currentYear: nat) returns (r: seq<Transaction>)
      modifies this, categoryState
      ensures (View(), r) == ExtractView(old(View()), text, currentYear)
    {
      if text == [] || Strip(text) == [] {
        return [];
      }
      var lines := Split(text, '\n');
      ghost var start := View();
      var i := 0;
      while i < |lines|
        invariant 0 <= i <= |lines|
        invariant View() == ProcessLines(start, lines[..i], currentYear)
      {
        assert lines[..i + 1][..i] == lines[..i];
        ghost var before := View();
        stats := stats.(linesProcessed := stats.linesProcessed + 1);
        assert View() == Counted(before);
        ProcessLine(lines[i], currentYear);
        assert View() == StepView(before, lines[i], currentYear);
        i := i + 1;
      }
      assert lines[..|lines|] == lines;
      if currentTransaction.Some? {
        FinalizeTransaction();
      }
      FinalizePendingTransaction();
      return transactions;
    }
  }

  /** `extract_transactions_from_text`. */
  method ExtractTransactionsFromText(text: string, currentYear: nat) returns (r: seq<Transaction>)
    ensures r == ExtractFromText(text, currentYear)
  {
    var extractor := new TransactionExtractor();
    r := extractor.ExtractTransactions(text, currentYear);
  }
}
