/**
 * The PDF report writer: which flowables the report story holds, and in which order.
 * Styles, fonts, colours, table sizes, the float month and bank totals and the
 * file itself are not modelled; each `_create_...` method becomes a method proved against a function
 * that says what it builds.
 */
module ReportWriter {
  import opened Wrappers
  import opened Text
  import opened Ordering
  import opened Seqs
  import opened Strptime
  import opened FinancialRules
  import opened RegexExtractor
  import opened TransactionFilter
  import opened TransactionGrouper
  import opened PipelineInputs

  /** One body row of a transaction table: date, description, amount. */
  datatype Row = Row(date: string, description: string, amount: string)

  /** A flowable of the story. Spacer heights are in hundredths of an inch. */
  datatype Element =
    | Title(text: string)
    | SectionHeading(text: string)
    | InfoText(text: string)
    | Spacer(hundredths: nat)
    | EmptyTable
    | TransactionTable(context: seq<string>, rows: seq<Row>, total: string)
    | MonthTotal
    | BankTotalsTable(bank: string)
    | PageBreak

  const ReportTitle := "Bank Statement Transaction Report"
  const NoTransactionsFound := "No transactions found matching the criteria."
  const MaxDescriptionLength := 60
  const NotNoneError := "grouped_transactions cannot be None"
  const NotDictError := "grouped_data must be a dictionary"

  /** `%B` in the C locale. */
  const MonthNames: seq<string> := [
    "January", "February", "March", "April", "May", "June",
    "July", "August", "September", "October", "November", "December"]

  // ---------------------------------------------------------------- cells

  /** `_truncate_description`: at most `maxLength` characters, with an ellipsis when cut. */
  function TruncateDescription(description: string, maxLength: int): (r: string)
    ensures |description| <= maxLength ==> r == description
    ensures 3 <= maxLength < |description| ==>
              |r| == maxLength && r[..maxLength - 3] == description[..maxLength - 3] && EndsWith(r, "...")
  {
    if |description| <= maxLength then description
    else PyPrefix(description, maxLength - 3) + "..."
  }

  /** `_format_month_heading`: "January 2025" for a `%Y-%m` month, the text itself otherwise. */
  function FormatMonthHeading(month: string): (r: string)
    ensures !IsYearMonth(month) ==> r == month
  {
    match Parse(month, YearMonth)
    case Some(d) => MonthNames[d.month - 1] + " " + Render(d, FullYear)
    case None => month
  }

  /** The heading of a month written `YYYY-MM` names that month and that year. */
  lemma PaddedMonthHeading(year: nat, month: nat)
    requires 1 <= year <= 9999 && 1 <= month <= 12
    ensures FormatMonthHeading(PaddedMonth(year, month)) == MonthNames[month - 1] + " " + Pad4(year)
  {
    PaddedMonthIsFormat(year, month);
    RoundTrip(Date(year, month, 1), YearMonth);
  }

  /** One row of `_create_transaction_table`, with its placeholders for empty fields. */
  function RowOf(t: Transaction): (r: Row)
    ensures r.date != [] && r.description != [] && r.amount != []
    ensures |r.description| <= MaxDescriptionLength
    ensures t.date != [] ==> r.date == t.date
    ensures t.amountDisplay != [] ==> r.amount == t.amountDisplay
    ensures |t.description| <= MaxDescriptionLength ==> t.description != [] ==> r.description == t.description
  {
    Row(if t.date == [] then "[No date]" else t.date,
        TruncateDescription(if t.description == [] then NoDescription else t.description, MaxDescriptionLength),
        if t.amountDisplay == [] then "0.00" else t.amountDisplay)
  }

  /** `sum(t.amount for t in transactions)`, in cents. */
  function AmountSum(ts: seq<Transaction>): int
    decreases |ts|
  {
    if ts == [] then 0 else AmountSum(ts[..|ts| - 1]) + ts[|ts| - 1].amount
  }

  /**
   * The amount of a table's TOTAL row: `+{total:.2f}` at or above zero, and
   * `{total:.2f}` below it, where `:.2f` writes the minus sign itself.
   */
  function TotalDisplay(total: int): string {
    var a := Abs(total);
    var fixed := NatToString(a / 100) + "." + Pad2(a % 100);
    if total >= 0 then "+" + fixed else "-" + fixed
  }

  /** The TOTAL row is written like a single signed amount, so it reads back to the total in cents. */
  lemma TotalDisplayReadsBack(total: int)
    ensures TotalDisplay(total) == FormatAmountDisplay(total)
    ensures ParseDisplay(TotalDisplay(total)) == Some(total)
  {
    var a := Abs(total);
    assert Pad2(a % 100) == [DigitChar(a % 100 / 10), DigitChar(a % 100 % 10)];
    DisplayRoundTrip(total);
  }

  /** What `_create_transaction_table` builds: the placeholder table, or one row per transaction and the TOTAL row. */
  function TransactionTableOf(ts: seq<Transaction>, month: string, bank: string, txnType: string): Element {
    if ts == [] then EmptyTable
    else TransactionTable([month, bank, txnType], seq(|ts|, i requires 0 <= i < |ts| => RowOf(ts[i])),
                          TotalDisplay(AmountSum(ts)))
  }

  /** `_create_transaction_table`. */
  method CreateTransactionTable(ts: seq<Transaction>, month: string, bank: string, txnType: string)
    returns (table: Element)
    ensures table == TransactionTableOf(ts, month, bank, txnType)
    ensures ts == [] <==> table == EmptyTable
    ensures ts != [] ==> table.TransactionTable? && |table.rows| == |ts|
    ensures ts != [] ==> ParseDisplay(table.total) == Some(AmountSum(ts))
  {
    if ts == [] {
      return EmptyTable;
    }
    var rows: seq<Row> := [];
    for i := 0 to |ts|
      invariant |rows| == i
      invariant forall j :: 0 <= j < i ==> rows[j] == RowOf(ts[j])
    {
      rows := rows + [RowOf(ts[i])];
    }
    var total := AmountSum(ts);
    TotalDisplayReadsBack(total);
    table := TransactionTable([month, bank, txnType], rows, TotalDisplay(total));
  }

  // ---------------------------------------------------------------- picking elements out of a story

  /** The elements of `es` that `pick` recognises, as what it makes of them, in order. */
  function Picked<U>(es: seq<Element>, pick: Element -> Option<U>): seq<U>
    decreases |es|
  {
    if es == [] then []
    else (match pick(es[0]) case Some(u) => [u] case None => []) + Picked(es[1..], pick)
  }

  lemma {:induction false} PickedAppend<U>(a: seq<Element>, b: seq<Element>, pick: Element -> Option<U>)
    ensures Picked(a + b, pick) == Picked(a, pick) + Picked(b, pick)
    decreases |a|
  {
    if a == [] {
      assert a + b == b;
    } else {
      assert (a + b)[1..] == a[1..] + b;
      PickedAppend(a[1..], b, pick);
    }
  }

  lemma {:induction false} PickedNone<U>(es: seq<Element>, pick: Element -> Option<U>)
    requires forall i :: 0 <= i < |es| ==> pick(es[i]).None?
    ensures Picked(es, pick) == []
    decreases |es|
  {
    if es != [] {
      PickedNone(es[1..], pick);
    }
  }

  /** Only the element at `k` is recognised. */
  lemma PickedOnly<U>(es: seq<Element>, k: nat, pick: Element -> Option<U>)
    requires k < |es| && pick(es[k]).Some?
    requires forall i :: 0 <= i < |es| && i != k ==> pick(es[i]).None?
    ensures Picked(es, pick) == [pick(es[k]).value]
  {
    var before, after := es[..k], es[k + 1..];
    assert es == before + ([es[k]] + after);
    PickedNone(before, pick);
    PickedNone(after, pick);
    PickedAppend(before, [es[k]] + after, pick);
    PickedAppend([es[k]], after, pick);
  }

  /** A table's context row: month, bank and type. */
  function ContextOf(e: Element): Option<seq<string>> {
    if e.TransactionTable? then Some(e.context) else None
  }

  function HeadingOf(e: Element): Option<string> {
    if e.SectionHeading? then Some(e.text) else None
  }

  function TotalsOf(e: Element): Option<string> {
    if e.BankTotalsTable? then Some(e.bank) else None
  }

  function BreakOf(e: Element): Option<Element> {
    if e.PageBreak? then Some(e) else None
  }

  // ---------------------------------------------------------------- multi-bank report

  /** One month's transactions by type, one bank's months, and every bank's. */
  type MonthData = map<string, seq<Transaction>>
  type BankData = map<string, MonthData>
  type GroupedData = map<string, BankData>

  /*
   * The functions below take the month heading as a parameter `heading` (the methods pass
   * `FormatMonthHeading`): the layout does not depend on how a month is named.
   */

  /** The context row of one type's table, when that type has transactions. */
  function TypeContext(name: string, bank: string, monthData: MonthData, key: string, kind: string)
    : seq<seq<string>>
  {
    if key in monthData && monthData[key] != [] then [[name, bank, kind]] else []
  }

  /** The context rows of one month's tables, headed `name`: deposits first, then withdrawals. */
  function MonthContexts(name: string, bank: string, monthData: MonthData): seq<seq<string>> {
    TypeContext(name, bank, monthData, DepositsKey, "Deposits")
    + TypeContext(name, bank, monthData, WithdrawalsKey, "Withdrawals")
  }

  /** One type's table and the space below it, when that type has transactions. */
  function TypeTable(name: string, bank: string, monthData: MonthData, key: string, kind: string): seq<Element> {
    if key in monthData && monthData[key] != [] then [TransactionTableOf(monthData[key], name, bank, kind), Spacer(15)]
    else []
  }

  /** What `_create_month_section_multi` builds for a month whose heading is `name`. */
  function MonthSectionMultiOf(name: string, monthData: MonthData, bank: string): seq<Element> {
    TypeTable(name, bank, monthData, DepositsKey, "Deposits")
    + TypeTable(name, bank, monthData, WithdrawalsKey, "Withdrawals")
    + [PageBreak]
  }

  /** `_create_month_section_multi`. */
  method CreateMonthSectionMulti(month: string, monthData: MonthData, bank: string)
    returns (elements: seq<Element>)
    ensures elements == MonthSectionMultiOf(FormatMonthHeading(month), monthData, bank)
  {
    elements := [];
    var name := FormatMonthHeading(month);
    if DepositsKey in monthData && monthData[DepositsKey] != [] {
      var table := CreateTransactionTable(monthData[DepositsKey], name, bank, "Deposits");
      elements := elements + [table, Spacer(15)];
    }
    if WithdrawalsKey in monthData && monthData[WithdrawalsKey] != [] {
      var table := CreateTransactionTable(monthData[WithdrawalsKey], name, bank, "Withdrawals");
      elements := elements + [table, Spacer(15)];
    }
    elements := elements + [PageBreak];
  }

  /** A type's table carries its context row, and neither totals nor a page break. */
  lemma TypeTablePicked(name: string, bank: string, monthData: MonthData, key: string, kind: string)
    ensures var t := TypeTable(name, bank, monthData, key, kind);
            && Picked(t, ContextOf) == TypeContext(name, bank, monthData, key, kind)
            && Picked(t, TotalsOf) == [] && Picked(t, BreakOf) == []
  {
    var t := TypeTable(name, bank, monthData, key, kind);
    if t != [] {
      PickedOnly(t, 0, ContextOf);
    }
    PickedNone(t, TotalsOf);
    PickedNone(t, BreakOf);
  }

  /** A month section's tables carry the month's heading, the bank and the type, deposits first. */
  lemma MonthSectionTables(name: string, monthData: MonthData, bank: string)
    ensures Picked(MonthSectionMultiOf(name, monthData, bank), ContextOf) == MonthContexts(name, bank, monthData)
    ensures Picked(MonthSectionMultiOf(name, monthData, bank), TotalsOf) == []
    ensures |Picked(MonthSectionMultiOf(name, monthData, bank), BreakOf)| == 1
  {
    var dep := TypeTable(name, bank, monthData, DepositsKey, "Deposits");
    var wd := TypeTable(name, bank, monthData, WithdrawalsKey, "Withdrawals");
    TypeTablePicked(name, bank, monthData, DepositsKey, "Deposits");
    TypeTablePicked(name, bank, monthData, WithdrawalsKey, "Withdrawals");
    PickedAppend(dep + wd, [PageBreak], ContextOf);
    PickedAppend(dep, wd, ContextOf);
    PickedAppend(dep + wd, [PageBreak], TotalsOf);
    PickedAppend(dep, wd, TotalsOf);
    PickedAppend(dep + wd, [PageBreak], BreakOf);
    PickedAppend(dep, wd, BreakOf);
  }

  /** The month sections of `months`, one after another. */
  function MonthSectionsOf(bank: string, bankData: BankData, months: seq<string>, heading: string -> string)
    : seq<Element>
    requires forall m :: m in months ==> m in bankData
    decreases |months|
  {
    if months == [] then []
    else
      var last := months[|months| - 1];
      MonthSectionsOf(bank, bankData, months[..|months| - 1], heading)
      + MonthSectionMultiOf(heading(last), bankData[last], bank)
  }

  lemma MonthSectionsStep(bank: string, bankData: BankData, months: seq<string>, i: nat, heading: string -> string)
    requires forall m :: m in months ==> m in bankData
    requires i < |months|
    ensures MonthSectionsOf(bank, bankData, months[..i + 1], heading)
            == MonthSectionsOf(bank, bankData, months[..i], heading)
               + MonthSectionMultiOf(heading(months[i]), bankData[months[i]], bank)
  {
    assert months[..i + 1][..i] == months[..i];
  }

  /** One turn of the month loop of `_create_bank_section`, with the heading it writes. */
  lemma MonthSectionsExtend(bank: string, bankData: BankData, months: seq<string>, i: nat, section: seq<Element>)
    requires forall m :: m in months ==> m in bankData
    requires i < |months|
    requires section == MonthSectionMultiOf(FormatMonthHeading(months[i]), bankData[months[i]], bank)
    ensures forall m :: m in months[..i + 1] ==> m in bankData
    ensures MonthSectionsOf(bank, bankData, months[..i + 1], FormatMonthHeading)
            == MonthSectionsOf(bank, bankData, months[..i], FormatMonthHeading) + section
  {
    MonthSectionsStep(bank, bankData, months, i, FormatMonthHeading);
  }

  /** The table contexts the month sections of `months` carry, in order. */
  function MonthsContexts(bank: string, bankData: BankData, months: seq<string>, heading: string -> string)
    : seq<seq<string>>
    requires forall m :: m in months ==> m in bankData
    decreases |months|
  {
    if months == [] then []
    else
      var last := months[|months| - 1];
      MonthsContexts(bank, bankData, months[..|months| - 1], heading) + MonthContexts(heading(last), bank, bankData[last])
  }

  /** `elements.pop()` when the last element is a page break. */
  function DropTrailingBreak(es: seq<Element>): seq<Element> {
    if es != [] && es[|es| - 1] == PageBreak then es[..|es| - 1] else es
  }

  /** What `_create_bank_section` puts after the months: the totals, then a page break. */
  function BankClosing(bank: string): seq<Element> {
    [Spacer(20), BankTotalsTable(bank), Spacer(30), PageBreak]
  }

  /** A bank section around its month sections: the last month's page break moves below the totals. */
  function BankLayout(bank: string, sections: seq<Element>): seq<Element> {
    DropTrailingBreak([Spacer(20)] + sections) + BankClosing(bank)
  }

  /** What `_create_bank_section` builds. */
  function BankSectionOf(bank: string, bankData: BankData, heading: string -> string): seq<Element> {
    BankLayout(bank, MonthSectionsOf(bank, bankData, SortedStrings(bankData.Keys), heading))
  }

  /** The month loop of `_create_bank_section`: months in sorted order. */
  method CreateMonthSections(bank: string, bankData: BankData) returns (sections: seq<Element>)
    ensures sections == MonthSectionsOf(bank, bankData, SortedStrings(bankData.Keys), FormatMonthHeading)
  {
    var months := SortedStrings(bankData.Keys);
    sections := CreateSectionsFor(bank, bankData, months);
  }

  /** The body of the month loop, for the months `months` in the order given. */
  method CreateSectionsFor(bank: string, bankData: BankData, months: seq<string>) returns (sections: seq<Element>)
    requires forall m :: m in months ==> m in bankData
    ensures sections == MonthSectionsOf(bank, bankData, months, FormatMonthHeading)
  {
    sections := [];
    for i := 0 to |months|
      invariant forall m :: m in months[..i] ==> m in bankData
      invariant sections == MonthSectionsOf(bank, bankData, months[..i], FormatMonthHeading)
    {
      var m := months[i];
      var section := CreateMonthSectionMulti(m, bankData[m], bank);
      MonthSectionsExtend(bank, bankData, months, i, section);
      sections := sections + section;
    }
    assert months[..|months|] == months;
  }

  /** `_create_bank_section`. */
  method CreateBankSection(bank: string, bankData: BankData) returns (elements: seq<Element>)
    ensures elements == BankSectionOf(bank, bankData, FormatMonthHeading)
  {
    elements := [Spacer(20)];
    var sections := CreateMonthSections(bank, bankData);
    elements := elements + sections;
    if elements != [] && elements[|elements| - 1] == PageBreak {
      elements := elements[..|elements| - 1];
    }
    elements := elements + BankClosing(bank);
  }

  lemma {:induction false} MonthSectionsPicked(bank: string, bankData: BankData, months: seq<string>,
                                               heading: string -> string)
    requires forall m :: m in months ==> m in bankData
    ensures var s := MonthSectionsOf(bank, bankData, months, heading);
            && Picked(s, ContextOf) == MonthsContexts(bank, bankData, months, heading)
            && Picked(s, TotalsOf) == []
            && |Picked(s, BreakOf)| == |months|
            && (months != [] ==> s != [] && s[|s| - 1] == PageBreak)
    decreases |months|
  {
    if months != [] {
      var init := months[..|months| - 1];
      var last := months[|months| - 1];
      assert forall m :: m in init ==> m in months;
      MonthSectionsPicked(bank, bankData, init, heading);
      var a := MonthSectionsOf(bank, bankData, init, heading);
      var b := MonthSectionMultiOf(heading(last), bankData[last], bank);
      MonthSectionTables(heading(last), bankData[last], bank);
      PickedAppend(a, b, ContextOf);
      PickedAppend(a, b, TotalsOf);
      PickedAppend(a, b, BreakOf);
    }
  }

  /** Dropping a trailing page break removes exactly that break and nothing else. */
  lemma DropTrailingBreakPicked<U>(es: seq<Element>, pick: Element -> Option<U>)
    requires pick(PageBreak).None?
    ensures Picked(DropTrailingBreak(es), pick) == Picked(es, pick)
  {
    if es != [] && es[|es| - 1] == PageBreak {
      assert es == es[..|es| - 1] + [PageBreak];
      PickedAppend(es[..|es| - 1], [PageBreak], pick);
    }
  }

  lemma DropTrailingBreakCount(es: seq<Element>)
    requires es != [] && es[|es| - 1] == PageBreak
    ensures |Picked(DropTrailingBreak(es), BreakOf)| + 1 == |Picked(es, BreakOf)|
  {
    assert es == es[..|es| - 1] + [PageBreak];
    PickedAppend(es[..|es| - 1], [PageBreak], BreakOf);
  }

  /** What a bank section shows, apart from spacers and breaks, is its months' and then its totals. */
  lemma LayoutPicked<U>(bank: string, sections: seq<Element>, pick: Element -> Option<U>)
    requires pick(PageBreak).None? && pick(Spacer(20)).None?
    ensures Picked(BankLayout(bank, sections), pick) == Picked(sections, pick) + Picked(BankClosing(bank), pick)
  {
    var body := [Spacer(20)] + sections;
    DropTrailingBreakPicked(body, pick);
    PickedAppend(DropTrailingBreak(body), BankClosing(bank), pick);
    PickedAppend([Spacer(20)], sections, pick);
    PickedNone([Spacer(20)], pick);
  }

  lemma LayoutBreaks(bank: string, sections: seq<Element>)
    requires sections != [] && sections[|sections| - 1] == PageBreak
    ensures |Picked(BankLayout(bank, sections), BreakOf)| == |Picked(sections, BreakOf)|
  {
    var body := [Spacer(20)] + sections;
    DropTrailingBreakCount(body);
    PickedAppend(DropTrailingBreak(body), BankClosing(bank), BreakOf);
    PickedAppend([Spacer(20)], sections, BreakOf);
    PickedNone([Spacer(20)], BreakOf);
    PickedOnly(BankClosing(bank), 3, BreakOf);
  }

  /**
   * A bank section lists its months in sorted order, deposits before withdrawals in each,
   * ends with its own totals table, and breaks the page once per month: the break after
   * the last month is moved below the totals.
   */
  lemma BankSectionLayout(bank: string, bankData: BankData, heading: string -> string)
    ensures var r := BankSectionOf(bank, bankData, heading);
            && Picked(r, ContextOf) == MonthsContexts(bank, bankData, SortedStrings(bankData.Keys), heading)
            && Picked(r, TotalsOf) == [bank]
            && (bankData != map[] ==> |Picked(r, BreakOf)| == |bankData.Keys|)
            && |r| >= 4 && r[|r| - 4..] == BankClosing(bank)
  {
    var months := SortedStrings(bankData.Keys);
    var sections := MonthSectionsOf(bank, bankData, months, heading);
    assert BankSectionOf(bank, bankData, heading) == BankLayout(bank, sections);
    MonthSectionsPicked(bank, bankData, months, heading);
    LayoutPicked(bank, sections, ContextOf);
    LayoutPicked(bank, sections, TotalsOf);
    PickedNone(BankClosing(bank), ContextOf);
    PickedOnly(BankClosing(bank), 1, TotalsOf);
    if bankData != map[] {
      assert months != [];
      LayoutBreaks(bank, sections);
    }
  }

  /** `sorted` banks other than "Unmatched", then "Unmatched" when present. */
  function BankOrder(banks: set<string>): (r: seq<string>)
    ensures forall b :: b in r <==> b in banks
  {
    SortedStrings(banks - {UnmatchedKey}) + (if UnmatchedKey in banks then [UnmatchedKey] else [])
  }

  /** Every bank is processed exactly once; the named banks in sorted order, "Unmatched" last. */
  lemma BankOrderLists(banks: set<string>)
    ensures Distinct(BankOrder(banks))
    ensures |BankOrder(banks)| == |banks|
    ensures UnmatchedKey in banks ==> BankOrder(banks)[|BankOrder(banks)| - 1] == UnmatchedKey
    ensures StrictlySorted(SortedStrings(banks - {UnmatchedKey}))
    ensures BankOrder(banks)[..|banks - {UnmatchedKey}|] == SortedStrings(banks - {UnmatchedKey})
  {
    BankOrderDistinct(banks);
    BankCount(banks);
    BankOrderParts(banks);
  }

  lemma BankOrderParts(banks: set<string>)
    ensures UnmatchedKey in banks ==> BankOrder(banks)[|BankOrder(banks)| - 1] == UnmatchedKey
    ensures BankOrder(banks)[..|banks - {UnmatchedKey}|] == SortedStrings(banks - {UnmatchedKey})
  {
    var named := SortedStrings(banks - {UnmatchedKey});
    var tail: seq<string> := if UnmatchedKey in banks then [UnmatchedKey] else [];
    assert BankOrder(banks) == named + tail;
    assert (named + tail)[..|named|] == named;
  }

  lemma BankOrderDistinct(banks: set<string>)
    ensures Distinct(BankOrder(banks))
  {
    var named := SortedStrings(banks - {UnmatchedKey});
    var tail: seq<string> := if UnmatchedKey in banks then [UnmatchedKey] else [];
    var r := named + tail;
    assert r == BankOrder(banks);
    assert UnmatchedKey !in named;
    forall i, j | 0 <= i < j < |r|
      ensures r[i] != r[j]
    {
      if j < |named| {
        SortedDistinct(named, i, j);
      } else {
        assert r[j] == tail[j - |named|];
        assert r[i] == named[i];
      }
    }
  }

  lemma SortedDistinct(s: seq<string>, i: nat, j: nat)
    requires StrictlySorted(s) && i < j < |s|
    ensures s[i] != s[j]
  {
    if s[i] == s[j] {
      LexLtIrreflexive(s[i]);
    }
  }

  lemma BankCount(banks: set<string>)
    ensures |BankOrder(banks)| == |banks|
  {
    if UnmatchedKey in banks {
      assert banks == (banks - {UnmatchedKey}) + {UnmatchedKey};
    } else {
      assert banks == banks - {UnmatchedKey};
    }
  }

  /** A bank that gets a section: one with months. */
  function HasMonths(data: GroupedData): string -> bool {
    b => b in data && data[b] != map[]
  }

  /** The sections of `banks` that have months, one after another. */
  function BankSectionsOf(data: GroupedData, banks: seq<string>, heading: string -> string): seq<Element>
    requires forall b :: b in banks ==> b in data
    decreases |banks|
  {
    if banks == [] then []
    else
      var last := banks[|banks| - 1];
      BankSectionsOf(data, banks[..|banks| - 1], heading)
      + (if data[last] != map[] then BankSectionOf(last, data[last], heading) else [])
  }

  lemma BankSectionsStep(data: GroupedData, banks: seq<string>, i: nat, heading: string -> string)
    requires forall b :: b in banks ==> b in data
    requires i < |banks|
    ensures BankSectionsOf(data, banks[..i + 1], heading) == BankSectionsOf(data, banks[..i], heading) +
              (if data[banks[i]] != map[] then BankSectionOf(banks[i], data[banks[i]], heading) else [])
  {
    assert banks[..i + 1][..i] == banks[..i];
  }

  /** `_create_multi_bank_header`: it shows none of the keywords, months or counts it is given. */
  const MultiBankHeader := [Title(ReportTitle), Spacer(30)]

  /** What `generate_multi_bank_report` puts below its header. */
  function MultiBankBodyOf(data: GroupedData, heading: string -> string): seq<Element> {
    if data == map[] then [InfoText(NoTransactionsFound)] else BankSectionsOf(data, BankOrder(data.Keys), heading)
  }

  /** The story `generate_multi_bank_report` builds from a dictionary. */
  function MultiBankStoryOf(data: GroupedData, heading: string -> string): seq<Element> {
    MultiBankHeader + MultiBankBodyOf(data, heading)
  }

  /** The bank loop of `generate_multi_bank_report`: banks in `BankOrder`, banks without months skipped. */
  method CreateBankSections(data: GroupedData) returns (sections: seq<Element>)
    ensures sections == BankSectionsOf(data, BankOrder(data.Keys), FormatMonthHeading)
  {
    sections := [];
    var banks := BankOrder(data.Keys);
    for i := 0 to |banks|
      invariant sections == BankSectionsOf(data, banks[..i], FormatMonthHeading)
    {
      BankSectionsStep(data, banks, i, FormatMonthHeading);
      var bankData := data[banks[i]];
      if bankData != map[] {
        var section := CreateBankSection(banks[i], bankData);
        sections := sections + section;
      }
    }
    assert banks[..|banks|] == banks;
  }

  /** `generate_multi_bank_report`, up to building the story; `None` and non-dictionaries raise. */
  method GenerateMultiBankReport(groupedData: Option<GroupedData>) returns (r: Result<seq<Element>, string>)
    ensures groupedData.None? <==> r == Failure(NotDictError)
    ensures groupedData.Some? ==> r == Success(MultiBankStoryOf(groupedData.value, FormatMonthHeading))
  {
    if groupedData.None? {
      return Failure(NotDictError);
    }
    var data := groupedData.value;
    var story := MultiBankHeader;
    if data == map[] {
      story := story + [InfoText(NoTransactionsFound)];
    } else {
      var sections := CreateBankSections(data);
      story := story + sections;
    }
    r := Success(story);
  }

  lemma {:induction false} BankSectionsTotals(data: GroupedData, banks: seq<string>, heading: string -> string)
    requires forall b :: b in banks ==> b in data
    ensures Picked(BankSectionsOf(data, banks, heading), TotalsOf) == Filter(banks, HasMonths(data))
    decreases |banks|
  {
    if banks != [] {
      var init := banks[..|banks| - 1];
      var last := banks[|banks| - 1];
      assert forall b :: b in init ==> b in banks;
      BankSectionsTotals(data, init, heading);
      var section := if data[last] != map[] then BankSectionOf(last, data[last], heading) else [];
      PickedAppend(BankSectionsOf(data, init, heading), section, TotalsOf);
      if data[last] != map[] {
        BankSectionLayout(last, data[last], heading);
      }
    }
  }

  lemma MultiBankBodyTotals(data: GroupedData, heading: string -> string)
    ensures Picked(MultiBankBodyOf(data, heading), TotalsOf) == Filter(BankOrder(data.Keys), HasMonths(data))
  {
    if data == map[] {
      assert BankOrder(data.Keys) == [];
      PickedNone(MultiBankBodyOf(data, heading), TotalsOf);
    } else {
      BankSectionsTotals(data, BankOrder(data.Keys), heading);
    }
  }

  /**
   * The report closes one totals table per bank that has months, in the processing order:
   * the named banks sorted, "Unmatched" last; banks without months get no section.
   */
  lemma MultiBankTotalsOrder(data: GroupedData, heading: string -> string)
    ensures var story := MultiBankStoryOf(data, heading);
            && Picked(story, TotalsOf) == Filter(BankOrder(data.Keys), HasMonths(data))
            && story[..2] == MultiBankHeader
            && (data == map[] ==> story == MultiBankHeader + [InfoText(NoTransactionsFound)])
  {
    PickedAppend(MultiBankHeader, MultiBankBodyOf(data, heading), TotalsOf);
    PickedNone(MultiBankHeader, TotalsOf);
    MultiBankBodyTotals(data, heading);
  }

  /** `generate_pdf_report`: the multi-bank report. */
  method GeneratePdfReport(groupedData: Option<GroupedData>) returns (r: Result<seq<Element>, string>)
    ensures groupedData.None? <==> r == Failure(NotDictError)
    ensures groupedData.Some? ==> r == Success(MultiBankStoryOf(groupedData.value, FormatMonthHeading))
  {
    r := GenerateMultiBankReport(groupedData);
  }

  // ---------------------------------------------------------------- single-keyword report

  /** The information lines of `_create_header`; `generated` is the clock's `%Y-%m-%d %H:%M:%S`. */
  function InfoLines(keyword: string, startMonth: string, endMonth: string, generated: string, total: nat)
    : seq<string>
  {
    ["<b>Keyword:</b> " + keyword,
     "<b>Date Range:</b> " + startMonth + " to " + endMonth,
     "<b>Generated:</b> " + generated,
     "<b>Total Matched Transactions:</b> " + NatToString(total)]
  }

  function HeaderOf(keyword: string, startMonth: string, endMonth: string, generated: string, total: nat)
    : seq<Element>
  {
    var lines := InfoLines(keyword, startMonth, endMonth, generated, total);
    [Title(ReportTitle), Spacer(20)] + seq(|lines|, i requires 0 <= i < |lines| => InfoText(lines[i])) + [Spacer(30)]
  }

  /** `_create_header`. */
  method CreateHeader(keyword: string, startMonth: string, endMonth: string, generated: string, total: nat)
    returns (elements: seq<Element>)
    ensures elements == HeaderOf(keyword, startMonth, endMonth, generated, total)
    ensures |elements| == 7 && elements[0] == Title(ReportTitle)
  {
    elements := [Title(ReportTitle), Spacer(20)];
    var lines := InfoLines(keyword, startMonth, endMonth, generated, total);
    for i := 0 to |lines|
      invariant |elements| == 2 + i
      invariant elements[..2] == [Title(ReportTitle), Spacer(20)]
      invariant forall j :: 0 <= j < i ==> elements[2 + j] == InfoText(lines[j])
    {
      elements := elements + [InfoText(lines[i])];
    }
    elements := elements + [Spacer(30)];
  }

  /** What `_create_month_section` builds under the heading `name`; its table has an empty context row. */
  function MonthSectionOf(name: string, ts: seq<Transaction>): seq<Element> {
    [SectionHeading(name), Spacer(10), TransactionTableOf(ts, "", "", ""), Spacer(10), MonthTotal, Spacer(30)]
  }

  /** `_create_month_section`. */
  method CreateMonthSection(month: string, ts: seq<Transaction>) returns (elements: seq<Element>)
    ensures elements == MonthSectionOf(FormatMonthHeading(month), ts)
  {
    var heading := FormatMonthHeading(month);
    elements := [SectionHeading(heading), Spacer(10)];
    var table := CreateTransactionTable(ts, "", "", "");
    elements := elements + [table, Spacer(10), MonthTotal, Spacer(30)];
  }

  /** A month that gets a section: one with transactions. */
  function HasTransactions(grouped: map<string, seq<Transaction>>): string -> bool {
    m => m in grouped && grouped[m] != []
  }

  function DatedSectionsOf(grouped: map<string, seq<Transaction>>, months: seq<string>, heading: string -> string)
    : seq<Element>
    requires forall m :: m in months ==> m in grouped
    decreases |months|
  {
    if months == [] then []
    else
      var last := months[|months| - 1];
      DatedSectionsOf(grouped, months[..|months| - 1], heading)
      + (if grouped[last] != [] then MonthSectionOf(heading(last), grouped[last]) else [])
  }

  lemma DatedSectionsStep(grouped: map<string, seq<Transaction>>, months: seq<string>, i: nat,
                          heading: string -> string)
    requires forall m :: m in months ==> m in grouped
    requires i < |months|
    ensures DatedSectionsOf(grouped, months[..i + 1], heading) == DatedSectionsOf(grouped, months[..i], heading) +
              (if grouped[months[i]] != [] then MonthSectionOf(heading(months[i]), grouped[months[i]]) else [])
  {
    assert months[..i + 1][..i] == months[..i];
  }

  /** The story `generate_report` builds under a given header. */
  function ReportStoryOf(header: seq<Element>, grouped: map<string, seq<Transaction>>, heading: string -> string)
    : seq<Element>
  {
    header +
    (if grouped == map[] then [InfoText(NoTransactionsFound)]
     else DatedSectionsOf(grouped, SortedStrings(grouped.Keys), heading))
  }

  /** The month loop of `generate_report`: months in sorted order, empty ones skipped. */
  method CreateDatedSections(data: map<string, seq<Transaction>>) returns (sections: seq<Element>)
    ensures sections == DatedSectionsOf(data, SortedStrings(data.Keys), FormatMonthHeading)
  {
    sections := [];
    var months := SortedStrings(data.Keys);
    for i := 0 to |months|
      invariant sections == DatedSectionsOf(data, months[..i], FormatMonthHeading)
    {
      var m := months[i];
      DatedSectionsStep(data, months, i, FormatMonthHeading);
      if data[m] != [] {
        var section := CreateMonthSection(m, data[m]);
        sections := sections + section;
      }
    }
    assert months[..|months|] == months;
  }

  /** `generate_report`, up to building the story; `None` raises. */
  method GenerateReport(grouped: Option<map<string, seq<Transaction>>>, keyword: string, startMonth: string,
                        endMonth: string, generated: string, total: nat)
    returns (r: Result<seq<Element>, string>)
    ensures grouped.None? <==> r == Failure(NotNoneError)
    ensures grouped.Some? ==>
              r == Success(ReportStoryOf(HeaderOf(keyword, startMonth, endMonth, generated, total), grouped.value,
                                         FormatMonthHeading))
  {
    if grouped.None? {
      return Failure(NotNoneError);
    }
    var data := grouped.value;
    var story := CreateHeader(keyword, startMonth, endMonth, generated, total);
    if data == map[] {
      story := story + [InfoText(NoTransactionsFound)];
    } else {
      var sections := CreateDatedSections(data);
      story := story + sections;
    }
    r := Success(story);
  }

  /** The headings of `months`, in order. */
  function Headings(months: seq<string>, heading: string -> string): seq<string>
    decreases |months|
  {
    if months == [] then [] else Headings(months[..|months| - 1], heading) + [heading(months[|months| - 1])]
  }

  lemma MonthSectionHeading(name: string, ts: seq<Transaction>)
    ensures Picked(MonthSectionOf(name, ts), HeadingOf) == [name]
  {
    PickedOnly(MonthSectionOf(name, ts), 0, HeadingOf);
  }

  lemma DatedSectionsHeadingStep(grouped: map<string, seq<Transaction>>, months: seq<string>,
                                 heading: string -> string)
    requires forall m :: m in months ==> m in grouped
    requires months != []
    ensures var last := months[|months| - 1];
            Picked(DatedSectionsOf(grouped, months, heading), HeadingOf)
            == Picked(DatedSectionsOf(grouped, months[..|months| - 1], heading), HeadingOf)
               + (if grouped[last] != [] then [heading(last)] else [])
  {
    var init := months[..|months| - 1];
    var last := months[|months| - 1];
    var section := if grouped[last] != [] then MonthSectionOf(heading(last), grouped[last]) else [];
    assert DatedSectionsOf(grouped, months, heading) == DatedSectionsOf(grouped, init, heading) + section;
    PickedAppend(DatedSectionsOf(grouped, init, heading), section, HeadingOf);
    if grouped[last] != [] {
      MonthSectionHeading(heading(last), grouped[last]);
    }
  }

  lemma HeadingsAppend(months: seq<string>, m: string, heading: string -> string)
    ensures Headings(months + [m], heading) == Headings(months, heading) + [heading(m)]
  {
    assert (months + [m])[..|months|] == months;
  }

  lemma HeadingsFilterStep(grouped: map<string, seq<Transaction>>, months: seq<string>, heading: string -> string)
    requires months != []
    ensures var last := months[|months| - 1];
            Headings(Filter(months, HasTransactions(grouped)), heading)
            == Headings(Filter(months[..|months| - 1], HasTransactions(grouped)), heading)
               + (if last in grouped && grouped[last] != [] then [heading(last)] else [])
  {
    var last := months[|months| - 1];
    var p := HasTransactions(grouped);
    var kept := Filter(months[..|months| - 1], p);
    FilterLast(months, p);
    if p(last) {
      HeadingsAppend(kept, last, heading);
    } else {
      assert kept + [] == kept;
    }
  }

  lemma {:induction false} DatedSectionsHeadings(grouped: map<string, seq<Transaction>>, months: seq<string>,
                                                 heading: string -> string)
    requires forall m :: m in months ==> m in grouped
    ensures Picked(DatedSectionsOf(grouped, months, heading), HeadingOf)
            == Headings(Filter(months, HasTransactions(grouped)), heading)
    decreases |months|
  {
    if months != [] {
      var init := months[..|months| - 1];
      assert forall m :: m in init ==> m in months;
      DatedSectionsHeadings(grouped, init, heading);
      DatedSectionsHeadingStep(grouped, months, heading);
      HeadingsFilterStep(grouped, months, heading);
    }
  }

  lemma HeaderHasNoHeadings(keyword: string, startMonth: string, endMonth: string, generated: string, total: nat)
    ensures Picked(HeaderOf(keyword, startMonth, endMonth, generated, total), HeadingOf) == []
  {
    PickedNone(HeaderOf(keyword, startMonth, endMonth, generated, total), HeadingOf);
  }

  lemma StoryHeadings(header: seq<Element>, grouped: map<string, seq<Transaction>>, heading: string -> string)
    requires Picked(header, HeadingOf) == []
    ensures Picked(ReportStoryOf(header, grouped, heading), HeadingOf)
            == Headings(Filter(SortedStrings(grouped.Keys), HasTransactions(grouped)), heading)
  {
    var rest := if grouped == map[] then [InfoText(NoTransactionsFound)]
                else DatedSectionsOf(grouped, SortedStrings(grouped.Keys), heading);
    PickedAppend(header, rest, HeadingOf);
    if grouped == map[] {
      assert SortedStrings(grouped.Keys) == [];
      PickedNone(rest, HeadingOf);
    } else {
      DatedSectionsHeadings(grouped, SortedStrings(grouped.Keys), heading);
    }
  }

  /**
   * The single-keyword report has one heading per month with transactions, in sorted month
   * order; its header carries no month heading.
   */
  lemma ReportHeadingsOrder(keyword: string, startMonth: string, endMonth: string, generated: string, total: nat,
                            grouped: map<string, seq<Transaction>>, heading: string -> string)
    ensures var story := ReportStoryOf(HeaderOf(keyword, startMonth, endMonth, generated, total), grouped, heading);
            Picked(story, HeadingOf) == Headings(Filter(SortedStrings(grouped.Keys), HasTransactions(grouped)), heading)
  {
    HeaderHasNoHeadings(keyword, startMonth, endMonth, generated, total);
    StoryHeadings(HeaderOf(keyword, startMonth, endMonth, generated, total), grouped, heading);
  }
}
