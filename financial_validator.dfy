/**
 * The transaction checks of backend/validators/financial_validator.py:
 * date, amount, description and type, run in that order; the first one
 * that fails decides the verdict and the counter it bumps. In strict mode
 * that failure is raised (here: a `Failure` carrying the check) instead of
 * the transaction being dropped.
 */
module FinancialValidator {
  import opened Wrappers
  import opened Text
  import opened Seqs
  import opened FinancialRules
  import opened RegexExtractor
  import opened Strptime

  /** The formats `_validate_date` tries, in order. */
  const DateFormats: seq<DateFormat> := [
    DateFormat('/', [MonthNum, DayNum, FullYear]),   // %m/%d/%Y
    DateFormat('/', [MonthNum, DayNum, ShortYear]),  // %m/%d/%y
    DateFormat('/', [MonthNum, DayNum]),             // %m/%d
    DateFormat('-', [MonthNum, DayNum, FullYear]),   // %m-%d-%Y
    DateFormat('-', [MonthNum, DayNum, ShortYear]),  // %m-%d-%y
    DateFormat('-', [FullYear, MonthNum, DayNum])    // %Y-%m-%d
  ]

  /** A date string is accepted when one of the formats parses all of it. */
  predicate DateAccepted(s: string) {
    s != [] && exists i :: 0 <= i < |DateFormats| && Parse(s, DateFormats[i]).Some?
  }

  /** The constructor's settings. */
  datatype Settings = Settings(strictMode: bool, allowZeroAmounts: bool, minDescriptionLength: int)

  /** `TransactionValidator()` with no arguments. */
  const DefaultSettings := Settings(false, false, 2)

  /** `_validate_amount`: zero is rejected unless allowed; there is no upper bound. */
  function AmountAccepted(settings: Settings, amount: int): (r: bool)
    ensures r <==> amount != 0 || settings.allowZeroAmounts
  {
    if amount == 0 then settings.allowZeroAmounts else true
  }

  /** `_validate_description`: non-blank, and long enough once stripped. */
  function DescriptionAccepted(settings: Settings, description: string): (r: bool)
    ensures r <==> |Strip(description)| >= 1 && |Strip(description)| >= settings.minDescriptionLength
  {
    var stripped := Strip(description);
    if stripped == [] then false
    else if |stripped| < settings.minDescriptionLength then false
    else true
  }

  /** `_validate_type_and_category`: only credit and debit pass; the category never matters. */
  function TypeAccepted(txnType: string, category: Option<string>): (r: bool)
    ensures r <==> txnType == "credit" || txnType == "debit"
  {
    if txnType !in {"credit", "debit", "unknown"} then false
    else if txnType == "unknown" then false
    else true
  }

  /** The four checks, and the counter each one bumps on failure. */
  datatype Check = DateCheck | AmountCheck | DescriptionCheck | CategoryCheck

  /** A transaction every check accepts. */
  predicate IsValid(settings: Settings, t: Transaction) {
    && DateAccepted(t.date)
    && (t.amount != 0 || settings.allowZeroAmounts)
    && |Strip(t.description)| >= 1 && |Strip(t.description)| >= settings.minDescriptionLength
    && t.txnType in {Credit, Debit}
  }

  /** `IsValid` as the condition of a list comprehension. */
  function ValidUnder(settings: Settings): Transaction -> bool {
    t => IsValid(settings, t)
  }

  /** The first check a transaction fails, or None when it is valid. */
  function FirstFailure(settings: Settings, t: Transaction): (r: Option<Check>)
    ensures r == Some(DateCheck) <==> !DateAccepted(t.date)
    ensures r == Some(AmountCheck) <==> DateAccepted(t.date) && !AmountAccepted(settings, t.amount)
    ensures r == Some(DescriptionCheck) <==>
              DateAccepted(t.date) && AmountAccepted(settings, t.amount) && !DescriptionAccepted(settings, t.description)
    ensures r == Some(CategoryCheck) <==>
              && DateAccepted(t.date) && AmountAccepted(settings, t.amount) && DescriptionAccepted(settings, t.description)
              && t.txnType == Unknown
    ensures r == None <==> IsValid(settings, t)
  {
    TypeChecked(t.txnType, t.category);
    if !DateAccepted(t.date) then Some(DateCheck)
    else if !AmountAccepted(settings, t.amount) then Some(AmountCheck)
    else if !DescriptionAccepted(settings, t.description) then Some(DescriptionCheck)
    else if !TypeAccepted(TypeValue(t.txnType), t.category) then Some(CategoryCheck)
    else None
  }

  /** The type check passes exactly for credits and debits. */
  lemma TypeChecked(t: TransactionType, category: Option<string>)
    ensures TypeAccepted(TypeValue(t), category) <==> t != Unknown
    ensures t in {Credit, Debit} <==> t != Unknown
  {
    assert "unknown" != "credit" && "unknown" != "debit";
  }

  /** The `validation_stats` dict. */
  datatype ValidationStats = ValidationStats(
    totalValidated: nat,
    valid: nat,
    invalid: nat,
    invalidDate: nat,
    invalidAmount: nat,
    invalidDescription: nat,
    invalidCategory: nat)

  const ZeroStats := ValidationStats(0, 0, 0, 0, 0, 0, 0)

  /** Every transaction seen was counted once as valid or invalid, and every invalid one under one check. */
  predicate Consistent(s: ValidationStats) {
    && s.totalValidated == s.valid + s.invalid
    && s.invalid == s.invalidDate + s.invalidAmount + s.invalidDescription + s.invalidCategory
  }

  /** The counters after one `validate_transaction` whose first failure is `failure`. */
  function Count(s: ValidationStats, failure: Option<Check>): (r: ValidationStats)
    ensures r.totalValidated == s.totalValidated + 1
    ensures failure.None? ==> r == s.(totalValidated := r.totalValidated, valid := s.valid + 1)
    ensures failure.Some? ==> r.valid == s.valid && r.invalid == s.invalid + 1
    ensures Consistent(s) ==> Consistent(r)
  {
    var s := s.(totalValidated := s.totalValidated + 1);
    match failure
    case None => s.(valid := s.valid + 1)
    case Some(DateCheck) => s.(invalidDate := s.invalidDate + 1, invalid := s.invalid + 1)
    case Some(AmountCheck) => s.(invalidAmount := s.invalidAmount + 1, invalid := s.invalid + 1)
    case Some(DescriptionCheck) => s.(invalidDescription := s.invalidDescription + 1, invalid := s.invalid + 1)
    case Some(CategoryCheck) => s.(invalidCategory := s.invalidCategory + 1, invalid := s.invalid + 1)
  }

  /** What `validate_transaction` returns: True, False, or the raised `ValidationError`. */
  function Verdict(strictMode: bool, failure: Option<Check>): (r: Result<bool, Check>)
    ensures r == Success(true) <==> failure.None?
    ensures r.Failure? <==> strictMode && failure.Some?
    ensures r.Failure? ==> Some(r.error) == failure
  {
    match failure
    case None => Success(true)
    case Some(k) => if strictMode then Failure(k) else Success(false)
  }

  /** `FirstFailure` under fixed settings, as a value. */
  function FailureUnder(settings: Settings): Transaction -> Option<Check> {
    t => FirstFailure(settings, t)
  }

  /** The transactions a check lets through. */
  function Passes(check: Transaction -> Option<Check>): Transaction -> bool {
    t => check(t).None?
  }

  /**
   * The loop of `validate_transactions` for any per-transaction check: the
   * counters and either the passing transactions in order or the first
   * raised failure.
   */
  function Scan(strictMode: bool, check: Transaction -> Option<Check>, s: ValidationStats, ts: seq<Transaction>)
    : (ValidationStats, Result<seq<Transaction>, Check>)
    decreases |ts|
  {
    if ts == [] then (s, Success([]))
    else
      var (s1, r1) := Scan(strictMode, check, s, ts[..|ts| - 1]);
      var t := ts[|ts| - 1];
      if r1.Failure? then (s1, r1)
      else
        var failure := check(t);
        var s2 := Count(s1, failure);
        match Verdict(strictMode, failure)
        case Failure(k) => (s2, Failure(k))
        case Success(ok) => (s2, Success(if ok then r1.value + [t] else r1.value))
  }

  /** The counters and the result after `validate_transactions(ts)`. */
  function ValidateAll(settings: Settings, s: ValidationStats, ts: seq<Transaction>): (ValidationStats, Result<seq<Transaction>, Check>)
  {
    Scan(settings.strictMode, FailureUnder(settings), s, ts)
  }

  /** Once a transaction raised, later ones are not looked at. */
  lemma {:induction false} FailureIsFinal(strictMode: bool, check: Transaction -> Option<Check>, s: ValidationStats,
                                          ts: seq<Transaction>, more: seq<Transaction>)
    requires Scan(strictMode, check, s, ts).1.Failure?
    ensures Scan(strictMode, check, s, ts + more) == Scan(strictMode, check, s, ts)
    decreases |more|
  {
    if more == [] {
      assert ts + more == ts;
    } else {
      var init := more[..|more| - 1];
      FailureIsFinal(strictMode, check, s, ts, init);
      assert (ts + more)[..|ts + more| - 1] == ts + init;
    }
  }

  /** Every call keeps `total_validated == valid + invalid` and `invalid` the sum of the four kinds. */
  lemma {:induction false} ScanConsistent(strictMode: bool, check: Transaction -> Option<Check>, s: ValidationStats, ts: seq<Transaction>)
    requires Consistent(s)
    ensures Consistent(Scan(strictMode, check, s, ts).0)
    decreases |ts|
  {
    if ts != [] {
      ScanConsistent(strictMode, check, s, ts[..|ts| - 1]);
    }
  }

  /** Outside strict mode the result is exactly the passing transactions, in order, and all are counted. */
  lemma {:induction false} LenientKeepsPassing(check: Transaction -> Option<Check>, s: ValidationStats, ts: seq<Transaction>)
    ensures Scan(false, check, s, ts).1 == Success(Filter(ts, Passes(check)))
    ensures Scan(false, check, s, ts).0.totalValidated == s.totalValidated + |ts|
    ensures Scan(false, check, s, ts).0.valid == s.valid + CountIf(ts, Passes(check))
    decreases |ts|
  {
    if ts != [] {
      var init := ts[..|ts| - 1];
      var t := ts[|ts| - 1];
      LenientKeepsPassing(check, s, init);
      var p := Passes(check);
      assert Filter(ts, p) == Filter(init, p) + (if p(t) then [t] else []);
      assert Filter(init, p) + [] == Filter(init, p);
    }
  }

  /** The position of the first transaction the check rejects, or `|ts|` when there is none. */
  function FirstRejected(check: Transaction -> Option<Check>, ts: seq<Transaction>): (j: nat)
    ensures j <= |ts|
    ensures forall i :: 0 <= i < j ==> check(ts[i]).None?
    ensures j < |ts| ==> check(ts[j]).Some?
    decreases |ts|
  {
    if ts == [] then 0
    else
      var init := ts[..|ts| - 1];
      var j := FirstRejected(check, init);
      assert forall i :: 0 <= i < |init| ==> init[i] == ts[i];
      if j < |init| then j
      else if check(ts[|ts| - 1]).None? then |ts|
      else |init|
  }

  /**
   * In strict mode the call raises exactly when the check rejects some
   * transaction; the raise carries the first rejection, and the counters
   * cover the transactions up to and including it. Otherwise every
   * transaction is returned.
   */
  lemma {:induction false} StrictStopsAtFirstRejected(check: Transaction -> Option<Check>, s: ValidationStats, ts: seq<Transaction>)
    ensures Scan(true, check, s, ts).1.Failure? <==> FirstRejected(check, ts) < |ts|
    ensures FirstRejected(check, ts) < |ts| ==>
              && Some(Scan(true, check, s, ts).1.error) == check(ts[FirstRejected(check, ts)])
              && Scan(true, check, s, ts).0.totalValidated == s.totalValidated + FirstRejected(check, ts) + 1
    ensures FirstRejected(check, ts) == |ts| ==>
              && Scan(true, check, s, ts).1 == Success(ts)
              && Scan(true, check, s, ts).0.totalValidated == s.totalValidated + |ts|
    decreases |ts|
  {
    if ts != [] {
      var init := ts[..|ts| - 1];
      StrictStopsAtFirstRejected(check, s, init);
      var j := FirstRejected(check, init);
      if j < |init| {
        assert init[j] == ts[j];
      } else {
        assert ts == init + [ts[|ts| - 1]];
      }
    }
  }

  /** Outside strict mode `validate_transactions` returns exactly the valid transactions, in order. */
  lemma LenientKeepsValid(settings: Settings, s: ValidationStats, ts: seq<Transaction>)
    requires !settings.strictMode
    ensures ValidateAll(settings, s, ts).1 == Success(Filter(ts, ValidUnder(settings)))
    ensures IsSubsequence(ValidateAll(settings, s, ts).1.value, ts)
    ensures ValidateAll(settings, s, ts).0.totalValidated == s.totalValidated + |ts|
  {
    LenientKeepsPassing(FailureUnder(settings), s, ts);
    FilterCongruent(ts, Passes(FailureUnder(settings)), ValidUnder(settings));
    FilterIsSubsequence(ts, ValidUnder(settings));
  }

  /**
   * In strict mode `validate_transactions` raises exactly when some
   * transaction is invalid, with the check the first invalid one fails.
   */
  lemma StrictRaisesAtFirstInvalid(settings: Settings, s: ValidationStats, ts: seq<Transaction>)
    requires settings.strictMode
    ensures var j := FirstRejected(FailureUnder(settings), ts);
            && (forall i :: 0 <= i < j ==> IsValid(settings, ts[i]))
            && (ValidateAll(settings, s, ts).1.Failure? <==> j < |ts|)
            && (j < |ts| ==> !IsValid(settings, ts[j]) && Some(ValidateAll(settings, s, ts).1.error) == FirstFailure(settings, ts[j]))
            && (j == |ts| ==> ValidateAll(settings, s, ts).1 == Success(ts))
  {
    StrictStopsAtFirstRejected(FailureUnder(settings), s, ts);
  }

  /** The counters stay consistent across any number of calls. */
  lemma ValidateAllConsistent(settings: Settings, s: ValidationStats, ts: seq<Transaction>)
    requires Consistent(s)
    ensures Consistent(ValidateAll(settings, s, ts).0)
  {
    ScanConsistent(settings.strictMode, FailureUnder(settings), s, ts);
  }

  /** Any calendar date written as `MM/DD/YYYY`, `MM-DD-YYYY` or `YYYY-MM-DD` is accepted. */
  lemma FullDatesAccepted(d: Date)
    requires IsCalendarDate(d)
    ensures DateAccepted(Format(d, DateFormats[0]))
    ensures DateAccepted(Format(d, DateFormats[3]))
    ensures DateAccepted(Format(d, DateFormats[5]))
  {
    RoundTrip(d, DateFormats[0]);
    RoundTrip(d, DateFormats[3]);
    RoundTrip(d, DateFormats[5]);
    assert Defaulted(d, DateFormats[0].fields) == d;
    assert Defaulted(d, DateFormats[3].fields) == d;
    assert Defaulted(d, DateFormats[5].fields) == d;
  }

  lemma DigitsHaveNo(t: string, c: char)
    requires AllDigits(t) && !IsDigit(c)
    ensures c !in t
  {
  }

  /** A year-first date written with slashes (`YYYY/MM/DD`) is rejected, whatever follows the year. */
  lemma SlashedYearFirstRejected(y: string, m: string, d: string)
    requires |y| == 4 && AllDigits(y)
    requires '/' !in m && '/' !in d && '-' !in m && '-' !in d
    ensures !DateAccepted(y + "/" + m + "/" + d)
  {
    var s := y + "/" + m + "/" + d;
    DigitsHaveNo(y, '/');
    DigitsHaveNo(y, '-');
    assert Join([y, m, d], "/") == s by {
      assert [y, m, d][..2] == [y, m];
      assert [y, m][..1] == [y];
      assert Join([y], "/") == y;
      assert Join([y, m], "/") == y + "/" + m;
      assert Join([y, m, d], "/") == Join([y, m], "/") + "/" + d;
    }
    SplitJoin([y, m, d], '/');
    NotInJoin([y, m, d], "/", '-');
    assert Split(s, '-') == [s];
    assert MonthField(y).None?;
    ParseFirstFieldFails(s, DateFormats[0]);
    ParseFirstFieldFails(s, DateFormats[1]);
    ParseCountMismatch(s, DateFormats[2]);
    NoDashFormat(s);
    NoFormatParses(s);
  }

  /** A string without a dash has one dash-separated part, which no dash format takes. */
  lemma NoDashFormat(s: string)
    requires Split(s, '-') == [s]
    ensures Parse(s, DateFormats[3]).None? && Parse(s, DateFormats[4]).None? && Parse(s, DateFormats[5]).None?
  {
    ParseCountMismatch(s, DateFormats[3]);
    ParseCountMismatch(s, DateFormats[4]);
    ParseCountMismatch(s, DateFormats[5]);
  }

  lemma NoFormatParses(s: string)
    requires Parse(s, DateFormats[0]).None? && Parse(s, DateFormats[1]).None? && Parse(s, DateFormats[2]).None?
    requires Parse(s, DateFormats[3]).None? && Parse(s, DateFormats[4]).None? && Parse(s, DateFormats[5]).None?
    ensures !DateAccepted(s)
  {
    forall i | 0 <= i < |DateFormats|
      ensures Parse(s, DateFormats[i]).None?
    {
      if i == 0 { } else if i == 1 { } else if i == 2 { } else if i == 3 { } else if i == 4 { }
    }
  }

  /** `MM/DD` without a year is read in 1900, which has no February 29. */
  lemma YearlessLeapDayRejected(m: string, d: string)
    requires MonthField(m) == Some(2) && DayField(d) == Some(29)
    ensures !DateAccepted(m + "/" + d)
  {
    var s := m + "/" + d;
    DigitsHaveNo(m, '/');
    DigitsHaveNo(m, '-');
    DigitsHaveNo(d, '/');
    DigitsHaveNo(d, '-');
    assert Join([m, d], "/") == s by {
      assert [m, d][..1] == [m];
      assert Join([m], "/") == m;
    }
    SplitJoin([m, d], '/');
    NotInJoin([m, d], "/", '-');
    assert Split(s, '-') == [s];
    ParseCountMismatch(s, DateFormats[0]);
    ParseCountMismatch(s, DateFormats[1]);
    YearlessFeb29(s, m, d);
    NoDashFormat(s);
    NoFormatParses(s);
  }

  /** `%m/%d` reads February 29 in 1900, which is not a calendar date. */
  lemma YearlessFeb29(s: string, m: string, d: string)
    requires MonthField(m) == Some(2) && DayField(d) == Some(29) && Split(s, '/') == [m, d]
    ensures Parse(s, DateFormats[2]).None?
  {
    var f := DateFormats[2];
    assert f.fields == [MonthNum, DayNum] && f.sep == '/';
    var acc := Record(NothingParsed, MonthNum, 2);
    assert [m, d][1..] == [d] && [d][1..] == [];
    assert ParseFields([d], [DayNum], acc) == Some(Parsed(None, Some(2), Some(29)));
    assert ParseFields([m, d], f.fields, NothingParsed) == Some(Parsed(None, Some(2), Some(29)));
    assert !IsLeapYear(1900);
    assert !IsCalendarDate(Date(1900, 2, 29));
  }

  /** The validator of backend/validators/financial_validator.py. */
  class TransactionValidator {
    const strictMode: bool
    const allowZeroAmounts: bool
    const minDescriptionLength: int
    var validationStats: ValidationStats

    function Config(): Settings {
      Settings(strictMode, allowZeroAmounts, minDescriptionLength)
    }

    constructor (strictMode: bool, allowZeroAmounts: bool, minDescriptionLength: int)
      ensures Config() == Settings(strictMode, allowZeroAmounts, minDescriptionLength)
      ensures validationStats == ZeroStats
    {
      this.strictMode := strictMode;
      this.allowZeroAmounts := allowZeroAmounts;
      this.minDescriptionLength := minDescriptionLength;
      validationStats := ZeroStats;
    }

    /** `_validate_date`: tries the formats in order and stops at the first that parses. */
    method ValidateDate(s: string) returns (r: bool)
      ensures r == DateAccepted(s)
    {
      if s == [] {
        return false;
      }
      for i := 0 to |DateFormats|
        invariant forall j :: 0 <= j < i ==> Parse(s, DateFormats[j]).None?
      {
        var parsed := Parse(s, DateFormats[i]);
        if parsed.Some? {
          return true;
        }
      }
      return false;
    }

    /** `validate_transaction`: counts the transaction, then returns True, False, or raises. */
    method ValidateTransaction(t: Transaction) returns (r: Result<bool, Check>)
      modifies this
      ensures validationStats == Count(old(validationStats), FirstFailure(Config(), t))
      ensures r == Verdict(strictMode, FirstFailure(Config(), t))
    {
      validationStats := validationStats.(totalValidated := validationStats.totalValidated + 1);
      var dateOk := ValidateDate(t.date);
      if !dateOk {
        validationStats := validationStats.(invalidDate := validationStats.invalidDate + 1,
                                            invalid := validationStats.invalid + 1);
        if strictMode {
          return Failure(DateCheck);
        }
        return Success(false);
      }
      if !AmountAccepted(Config(), t.amount) {
        validationStats := validationStats.(invalidAmount := validationStats.invalidAmount + 1,
                                            invalid := validationStats.invalid + 1);
        if strictMode {
          return Failure(AmountCheck);
        }
        return Success(false);
      }
      if !DescriptionAccepted(Config(), t.description) {
        validationStats := validationStats.(invalidDescription := validationStats.invalidDescription + 1,
                                            invalid := validationStats.invalid + 1);
        if strictMode {
          return Failure(DescriptionCheck);
        }
        return Success(false);
      }
      if !TypeAccepted(TypeValue(t.txnType), t.category) {
        validationStats := validationStats.(invalidCategory := validationStats.invalidCategory + 1,
                                            invalid := validationStats.invalid + 1);
        if strictMode {
          return Failure(CategoryCheck);
        }
        return Success(false);
      }
      validationStats := validationStats.(valid := validationStats.valid + 1);
      return Success(true);
    }

    /** `validate_transactions`: the valid transactions in order, or the first raised failure. */
    method ValidateTransactions(ts: seq<Transaction>) returns (r: Result<seq<Transaction>, Check>)
      modifies this
      ensures (validationStats, r) == ValidateAll(Config(), old(validationStats), ts)
    {
      ghost var start := validationStats;
      var validTransactions: seq<Transaction> := [];
      var i := 0;
      while i < |ts|
        invariant 0 <= i <= |ts|
        invariant (validationStats, Success(validTransactions)) == ValidateAll(Config(), start, ts[..i])
      {
        assert ts[..i + 1][..i] == ts[..i];
        var ok := ValidateTransaction(ts[i]);
        if ok.Failure? {
          assert ts[..i + 1] + ts[i + 1..] == ts;
          FailureIsFinal(strictMode, FailureUnder(Config()), start, ts[..i + 1], ts[i + 1..]);
          return Failure(ok.error);
        }
        if ok.value {
          validTransactions := validTransactions + [ts[i]];
        }
        i := i + 1;
      }
      assert ts[..i] == ts;
      return Success(validTransactions);
    }

    function GetStats(): ValidationStats
      reads this
    {
      validationStats
    }

    method ResetStats()
      modifies this
      ensures validationStats == ZeroStats
    {
      validationStats := ZeroStats;
    }
  }

  /** The module-level `validate_transactions(transactions, strict_mode)`, with the default settings otherwise. */
  method ValidateTransactionsWith(ts: seq<Transaction>, strictMode: bool) returns (r: Result<seq<Transaction>, Check>)
    ensures r == ValidateAll(DefaultSettings.(strictMode := strictMode), ZeroStats, ts).1
  {
    var validator := new TransactionValidator(strictMode, false, 2);
    r := validator.ValidateTransactions(ts);
  }
}
