/**
 * Category headers, the polarity they select, and the sign and display
 * rules for amounts (backend/extractors/financial_rules.py). Amounts are
 * integer cents.
 */
module FinancialRules {
  import opened Wrappers
  import opened Text

  datatype TransactionType = Credit | Debit | Unknown

  /** `TransactionType.value`. */
  function TypeValue(t: TransactionType): string {
    match t
    case Credit => "credit"
    case Debit => "debit"
    case Unknown => "unknown"
  }

  /** The label written into the state history, `"CREDIT"` or `"DEBIT"`. */
  function HistoryLabel(t: TransactionType): string {
    match t
    case Credit => "CREDIT"
    case Debit => "DEBIT"
    case Unknown => "UNKNOWN"
  }

  const CreditHeaders: set<string> := {
    "deposits and additions",
    "deposits and other credits",
    "deposits & additions",
    "deposits & other credits",
    "credits",
    "deposits"
  }

  const DebitHeaders: set<string> := {
    "electronic withdrawals",
    "withdrawals and other debits",
    "withdrawals & other debits",
    "electronic withdrawals & debits",
    "debits",
    "withdrawals",
    "checks paid",
    "atm withdrawals"
  }

  lemma HeaderSetsDisjoint()
    ensures CreditHeaders * DebitHeaders == {}
  {
  }

  /** The polarity a header line selects, or None for any other line. */
  function HeaderType(line: string): (r: Option<TransactionType>)
    ensures r == Some(Credit) <==> Lower(Strip(line)) in CreditHeaders
    ensures r == Some(Debit) <==> Lower(Strip(line)) in DebitHeaders
    ensures r != Some(Unknown)
  {
    HeaderSetsDisjoint();
    var key := Lower(Strip(line));
    if key in CreditHeaders then Some(Credit)
    else if key in DebitHeaders then Some(Debit)
    else None
  }

  /** `is_category_line`: the quick, non-mutating header test. */
  function IsCategoryLine(line: string): (r: bool)
    ensures r <==> HeaderType(line).Some?
  {
    var key := Lower(Strip(line));
    key in CreditHeaders || key in DebitHeaders
  }

  /**
   * Header recognition ignores case and surrounding whitespace: a line that
   * lower-cases like a header, padded with any whitespace, is that header.
   */
  lemma HeaderIgnoresCaseAndSpace(line: string, header: string, w1: string, w2: string)
    requires Lower(line) == Lower(header) && AllSpace(w1) && AllSpace(w2)
    ensures HeaderType(w1 + line + w2) == HeaderType(header)
  {
    StripPadded(w1, line, w2);
    LowerStrip(line);
    LowerStrip(header);
  }

  datatype HistoryEntry = HistoryEntry(kind: string, category: string)

  /** The observable value of a `CategoryState`. */
  datatype CategoryView = CategoryView(
    state: TransactionType,
    category: Option<string>,
    history: seq<HistoryEntry>)

  const InitialCategoryView := CategoryView(Unknown, None, [])

  /** The state after `update_state(line)`, and what the call returns. */
  function UpdateView(v: CategoryView, line: string): (r: (CategoryView, bool))
    ensures r.1 == IsCategoryLine(line)
    ensures r.1 ==> r.0.state == HeaderType(line).value
                    && r.0.category == Some(Strip(line))
                    && r.0.history == v.history + [HistoryEntry(HistoryLabel(r.0.state), Strip(line))]
    ensures !r.1 ==> r.0 == v
  {
    match HeaderType(line)
    case Some(t) => (CategoryView(t, Some(Strip(line)), v.history + [HistoryEntry(HistoryLabel(t), Strip(line))]), true)
    case None => (v, false)
  }

  /** Tracks the polarity of the section being read. */
  class CategoryState {
    var currentState: TransactionType
    var currentCategory: Option<string>
    var stateHistory: seq<HistoryEntry>

    function View(): CategoryView
      reads this
    {
      CategoryView(currentState, currentCategory, stateHistory)
    }

    constructor ()
      ensures View() == InitialCategoryView
    {
      currentState := Unknown;
      currentCategory := None;
      stateHistory := [];
    }

    method UpdateState(line: string) returns (changed: bool)
      modifies this
      ensures (View(), changed) == UpdateView(old(View()), line)
      ensures changed == IsCategoryLine(line)
      ensures HeaderType(line) == Some(Credit) ==>
                && currentState == Credit && currentCategory == Some(Strip(line))
                && stateHistory == old(stateHistory) + [HistoryEntry("CREDIT", Strip(line))]
      ensures HeaderType(line) == Some(Debit) ==>
                && currentState == Debit && currentCategory == Some(Strip(line))
                && stateHistory == old(stateHistory) + [HistoryEntry("DEBIT", Strip(line))]
      ensures !changed ==> View() == old(View())
    {
      var lineLower := Lower(Strip(line));
      if lineLower in CreditHeaders {
        currentState := Credit;
        currentCategory := Some(Strip(line));
        stateHistory := stateHistory + [HistoryEntry("CREDIT", Strip(line))];
        return true;
      }
      if lineLower in DebitHeaders {
        currentState := Debit;
        currentCategory := Some(Strip(line));
        stateHistory := stateHistory + [HistoryEntry("DEBIT", Strip(line))];
        return true;
      }
      return false;
    }

    function IsValidState(): (r: bool)
      reads this
      ensures r <==> currentState in {Credit, Debit}
    {
      currentState != Unknown
    }

    function GetState(): TransactionType reads this { currentState }

    function GetCategory(): Option<string> reads this { currentCategory }

    function GetHistory(): seq<HistoryEntry> reads this { stateHistory }

    method Reset()
      modifies this
      ensures currentState == Unknown && currentCategory == None
      ensures stateHistory == old(stateHistory)
      ensures !IsValidState()
    {
      currentState := Unknown;
      currentCategory := None;
    }
  }

  function Abs(a: int): nat { if a < 0 then -a else a }

  /** Credits are never negative and debits never positive. */
  predicate SignAgrees(amount: int, t: TransactionType) {
    (t == Credit ==> amount >= 0) && (t == Debit ==> amount <= 0)
  }

  /** `apply_sign_to_amount`: credits positive, debits negative, unknown positive. */
  function ApplySignToAmount(amount: int, t: TransactionType): (r: int)
    ensures Abs(r) == Abs(amount)
    ensures r >= 0 <==> (t != Debit || amount == 0)
    ensures SignAgrees(r, t)
  {
    var a: int := Abs(amount);
    if t == Credit then a
    else if t == Debit then -a
    else a
  }

  /** `format_amount_display`: an explicit sign, the whole part, two decimals. */
  function FormatAmountDisplay(amount: int): (r: string)
    ensures |r| >= 5
    ensures r[0] == '+' <==> amount >= 0
    ensures r[0] == '-' <==> amount < 0
    ensures r[|r| - 3] == '.'
    ensures AllDigits(r[1..|r| - 3]) && AllDigits(r[|r| - 2..])
  {
    var a := Abs(amount);
    var sign := if amount >= 0 then '+' else '-';
    var whole := NatToString(a / 100);
    var c := a % 100;
    var cents := [DigitChar(c / 10), DigitChar(c % 10)];
    DisplayLayout(sign, whole, cents);
    [sign] + whole + "." + cents
  }

  /** Where the parts of a display string sit. */
  lemma DisplayLayout(sign: char, whole: string, cents: string)
    requires |whole| >= 1 && |cents| == 2
    ensures var r := [sign] + whole + "." + cents;
            && |r| == |whole| + 4 && r[0] == sign && r[|r| - 3] == '.'
            && r[1..|r| - 3] == whole && r[|r| - 2..] == cents
  {
    var r := [sign] + whole + "." + cents;
    assert r[1..|r| - 3] == whole;
    assert r[|r| - 2..] == cents;
  }

  /** Reads a display string back into cents. */
  function ParseDisplay(s: string): Option<int>
  {
    if |s| >= 5 && (s[0] == '+' || s[0] == '-') && s[|s| - 3] == '.'
       && AllDigits(s[1..|s| - 3]) && AllDigits(s[|s| - 2..])
    then
      var magnitude := DigitsValue(s[1..|s| - 3]) * 100 + DigitsValue(s[|s| - 2..]);
      Some(if s[0] == '+' then magnitude else -magnitude)
    else None
  }

  /** The display string determines the amount to the cent. */
  lemma {:induction false} DisplayRoundTrip(amount: int)
    ensures ParseDisplay(FormatAmountDisplay(amount)) == Some(amount)
  {
    var a := Abs(amount);
    var whole := NatToString(a / 100);
    var c := a % 100;
    var cents := [DigitChar(c / 10), DigitChar(c % 10)];
    DisplayLayout(if amount >= 0 then '+' else '-', whole, cents);
    NatToStringRoundTrip(a / 100);
    DigitsValueShort(cents);
    assert DigitValue(cents[0]) == c / 10 && DigitValue(cents[1]) == c % 10;
    assert DigitsValue(cents) == c;
    assert DigitsValue(whole) * 100 + DigitsValue(cents) == a;
  }
}
