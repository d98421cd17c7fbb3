/**
 * `TransactionGrouper` in backend/main.py: transactions grouped by the
 * month read out of their date, and per bank into months and then into
 * deposits (credits) and withdrawals (debits).
 */
module TransactionGrouper {
  import opened Wrappers
  import opened Seqs
  import opened FinancialRules
  import opened RegexExtractor
  import opened TransactionFilter

  /** The month a transaction is grouped under, when `_extract_month` gives a non-empty one. */
  predicate HasMonth(t: Transaction, currentYear: nat) {
    var m := ExtractMonth(t.date, currentYear);
    m.Some? && m.value != []
  }

  function InMonth(month: string, currentYear: nat): Transaction -> bool {
    (t: Transaction) => ExtractMonth(t.date, currentYear) == Some(month)
  }

  /** Appends `t` to its month's group, opening the group when needed. */
  function AddToMonth(g: map<string, seq<Transaction>>, t: Transaction, currentYear: nat): map<string, seq<Transaction>> {
    if HasMonth(t, currentYear) then
      var m := ExtractMonth(t.date, currentYear).value;
      g[m := (if m in g then g[m] else []) + [t]]
    else g
  }

  /** The dict `group_by_month` returns, filled in input order. */
  function MonthGroups(ts: seq<Transaction>, currentYear: nat): map<string, seq<Transaction>>
    decreases |ts|
  {
    if ts == [] then map[]
    else AddToMonth(MonthGroups(ts[..|ts| - 1], currentYear), ts[|ts| - 1], currentYear)
  }

  /**
   * A month is a key exactly when some transaction has it, and its group
   * is every transaction of that month, in input order; so no group is empty.
   */
  lemma MonthGroupsAreFilters(ts: seq<Transaction>, currentYear: nat)
    ensures forall m :: m in MonthGroups(ts, currentYear) ==> m != []
    ensures forall m :: m != [] ==>
              (m in MonthGroups(ts, currentYear) <==> Filter(ts, InMonth(m, currentYear)) != [])
    ensures forall m :: m in MonthGroups(ts, currentYear) ==>
              MonthGroups(ts, currentYear)[m] == Filter(ts, InMonth(m, currentYear))
  {
    forall m: string {
      MonthGroupOf(ts, currentYear, m);
    }
  }

  /** `MonthGroupsAreFilters` for one month, by induction on the transactions. */
  lemma {:induction false} MonthGroupOf(ts: seq<Transaction>, currentYear: nat, m: string)
    ensures m in MonthGroups(ts, currentYear) ==> m != []
    ensures m != [] ==> (m in MonthGroups(ts, currentYear) <==> Filter(ts, InMonth(m, currentYear)) != [])
    ensures m in MonthGroups(ts, currentYear) ==> MonthGroups(ts, currentYear)[m] == Filter(ts, InMonth(m, currentYear))
    decreases |ts|
  {
    if ts != [] {
      var init, t := ts[..|ts| - 1], ts[|ts| - 1];
      MonthGroupOf(init, currentYear, m);
      AddToMonthAt(MonthGroups(init, currentYear), t, currentYear, m);
      FilterLast(ts, InMonth(m, currentYear));
    }
  }

  /** Filing one transaction touches only its own month's group, and there only appends. */
  lemma AddToMonthAt(g: map<string, seq<Transaction>>, t: Transaction, currentYear: nat, m: string)
    ensures var filed := m != [] && InMonth(m, currentYear)(t);
            (m in AddToMonth(g, t, currentYear) <==> m in g || filed) &&
            (m in AddToMonth(g, t, currentYear) ==>
               AddToMonth(g, t, currentYear)[m] == (if m in g then g[m] else []) + (if filed then [t] else []))
  {
    if m in g && !(m != [] && InMonth(m, currentYear)(t)) {
      assert g[m] + [] == g[m];
    }
  }

  /** Every transaction with a month is in that month's group. */
  lemma MonthGroupsComplete(ts: seq<Transaction>, currentYear: nat, t: Transaction)
    requires t in ts && HasMonth(t, currentYear)
    ensures var m := ExtractMonth(t.date, currentYear).value;
            m in MonthGroups(ts, currentYear) && t in MonthGroups(ts, currentYear)[m]
  {
    MonthGroupsAreFilters(ts, currentYear);
    var m := ExtractMonth(t.date, currentYear).value;
    assert t in Filter(ts, InMonth(m, currentYear));
  }

  /** `group_by_month`. */
  method GroupByMonth(ts: seq<Transaction>, currentYear: nat) returns (grouped: map<string, seq<Transaction>>)
    ensures grouped == MonthGroups(ts, currentYear)
  {
    grouped := map[];
    for i := 0 to |ts|
      invariant grouped == MonthGroups(ts[..i], currentYear)
    {
      var txn := ts[i];
      assert ts[..i + 1][..i] == ts[..i];
      var month := ExtractMonth(txn.date, currentYear);
      if month.Some? && month.value != [] {
        var group := if month.value in grouped then grouped[month.value] else [];
        grouped := grouped[month.value := group + [txn]];
      }
    }
    assert ts[..|ts|] == ts;
  }

  const DepositsKey := "deposits"
  const WithdrawalsKey := "withdrawals"

  function IsCredit(t: Transaction): bool { t.txnType == Credit }
  function IsDebit(t: Transaction): bool { t.txnType == Debit }

  /** One month's `{'deposits': [...], 'withdrawals': [...]}`, each key only when its list is non-empty. */
  function TypeSplit(monthTxns: seq<Transaction>): map<string, seq<Transaction>> {
    var deposits := Filter(monthTxns, IsCredit);
    var withdrawals := Filter(monthTxns, IsDebit);
    var withDeposits: map<string, seq<Transaction>> := if deposits != [] then map[DepositsKey := deposits] else map[];
    if withdrawals != [] then withDeposits[WithdrawalsKey := withdrawals] else withDeposits
  }

  /** The entries of `m` under the keys of `done` whose value is not `empty`. */
  function NonEmptyOf<V(==)>(m: map<string, V>, done: set<string>, empty: V): map<string, V> {
    map k | k in done && k in m && m[k] != empty :: m[k]
  }

  /** Seeing one more key adds its entry exactly when that entry is not empty. */
  lemma NonEmptyStep<V>(m: map<string, V>, done: set<string>, key: string, empty: V)
    requires key in m && key !in done
    ensures NonEmptyOf(m, done + {key}, empty)
            == if m[key] != empty then NonEmptyOf(m, done, empty)[key := m[key]] else NonEmptyOf(m, done, empty)
  {
  }

  /** Each month of `months` split by type. */
  function SplitEach(months: map<string, seq<Transaction>>): map<string, map<string, seq<Transaction>>> {
    map m | m in months :: TypeSplit(months[m])
  }

  /** The months of `months` with deposits or withdrawals, each split by type. */
  function SplitOf(months: map<string, seq<Transaction>>): map<string, map<string, seq<Transaction>>> {
    NonEmptyOf(SplitEach(months), months.Keys, map[])
  }

  /** One bank's months, keeping only the months with deposits or withdrawals. */
  function BankMonths(ts: seq<Transaction>, currentYear: nat): map<string, map<string, seq<Transaction>>> {
    SplitOf(MonthGroups(ts, currentYear))
  }

  /** Each bank's months. */
  function MonthsEach(byBank: map<string, seq<Transaction>>, currentYear: nat)
    : map<string, map<string, map<string, seq<Transaction>>>>
  {
    map b | b in byBank :: BankMonths(byBank[b], currentYear)
  }

  /** The dict `group_by_bank_month_type` returns, keeping only banks with such months. */
  function BankMonthType(byBank: map<string, seq<Transaction>>, currentYear: nat)
    : map<string, map<string, map<string, seq<Transaction>>>>
  {
    NonEmptyOf(MonthsEach(byBank, currentYear), byBank.Keys, map[])
  }

  /** The months loop of `group_by_bank_month_type` for one bank. */
  method SplitMonths(months: map<string, seq<Transaction>>) returns (bankData: map<string, map<string, seq<Transaction>>>)
    ensures bankData == SplitOf(months)
  {
    ghost var each := SplitEach(months);
    bankData := map[];
    var todo := months.Keys;
    while todo != {}
      invariant todo <= months.Keys
      invariant bankData == NonEmptyOf(each, months.Keys - todo, map[])
      decreases |todo|
    {
      var month :| month in todo;
      ghost var done := months.Keys - todo;
      todo := todo - {month};
      assert months.Keys - todo == done + {month};
      NonEmptyStep(each, done, month, map[]);
      var monthData := SplitMonth(months[month]);
      if monthData != map[] {
        bankData := bankData[month := monthData];
      }
    }
  }

  /** The body of the months loop: one month's deposits and withdrawals. */
  method SplitMonth(monthTxns: seq<Transaction>) returns (monthData: map<string, seq<Transaction>>)
    ensures monthData == TypeSplit(monthTxns)
  {
    var deposits := Filter(monthTxns, IsCredit);
    var withdrawals := Filter(monthTxns, IsDebit);
    monthData := map[];
    if deposits != [] {
      monthData := monthData[DepositsKey := deposits];
    }
    if withdrawals != [] {
      monthData := monthData[WithdrawalsKey := withdrawals];
    }
  }

  /** `group_by_bank_month_type`. */
  method GroupByBankMonthType(byBank: map<string, seq<Transaction>>, currentYear: nat)
    returns (result: map<string, map<string, map<string, seq<Transaction>>>>)
    ensures result == BankMonthType(byBank, currentYear)
  {
    ghost var each := MonthsEach(byBank, currentYear);
    result := map[];
    var todo := byBank.Keys;
    while todo != {}
      invariant todo <= byBank.Keys
      invariant result == NonEmptyOf(each, byBank.Keys - todo, map[])
      decreases |todo|
    {
      var bank :| bank in todo;
      ghost var done := byBank.Keys - todo;
      todo := todo - {bank};
      assert byBank.Keys - todo == done + {bank};
      NonEmptyStep(each, done, bank, map[]);
      var transactions := byBank[bank];
      if transactions == [] {
        assert SplitOf(MonthGroups(transactions, currentYear)) == map[];
        continue;
      }
      var months := GroupByMonth(transactions, currentYear);
      var bankData := SplitMonths(months);
      if bankData != map[] {
        result := result[bank := bankData];
      }
    }
  }

  /** A month's split has only the two keys, each with a non-empty list drawn from the month. */
  lemma TypeSplitShape(monthTxns: seq<Transaction>)
    ensures forall k :: k in TypeSplit(monthTxns) ==> k == DepositsKey || k == WithdrawalsKey
    ensures forall k :: k in TypeSplit(monthTxns) ==> TypeSplit(monthTxns)[k] != []
    ensures DepositsKey in TypeSplit(monthTxns) ==> TypeSplit(monthTxns)[DepositsKey] == Filter(monthTxns, IsCredit)
    ensures WithdrawalsKey in TypeSplit(monthTxns) ==> TypeSplit(monthTxns)[WithdrawalsKey] == Filter(monthTxns, IsDebit)
    ensures DepositsKey in TypeSplit(monthTxns) <==> Filter(monthTxns, IsCredit) != []
    ensures WithdrawalsKey in TypeSplit(monthTxns) <==> Filter(monthTxns, IsDebit) != []
  {
    assert DepositsKey != WithdrawalsKey;
  }

  /** No level of the nested result is empty, and a month holds only the two keys. */
  lemma NoEmptyLevels(byBank: map<string, seq<Transaction>>, currentYear: nat)
    ensures forall b :: b in BankMonthType(byBank, currentYear) ==> BankMonthType(byBank, currentYear)[b] != map[]
    ensures forall b, m :: b in BankMonthType(byBank, currentYear) && m in BankMonthType(byBank, currentYear)[b] ==>
              BankMonthType(byBank, currentYear)[b][m] != map[]
    ensures forall b, m, k ::
              b in BankMonthType(byBank, currentYear) && m in BankMonthType(byBank, currentYear)[b] &&
              k in BankMonthType(byBank, currentYear)[b][m] ==>
                (k == DepositsKey || k == WithdrawalsKey) && BankMonthType(byBank, currentYear)[b][m][k] != []
  {
    var r := BankMonthType(byBank, currentYear);
    forall b, m, k | b in r && m in r[b] && k in r[b][m]
      ensures (k == DepositsKey || k == WithdrawalsKey) && r[b][m][k] != []
    {
      var months := MonthGroups(byBank[b], currentYear);
      assert r[b][m] == TypeSplit(months[m]);
      TypeSplitShape(months[m]);
    }
  }

  function CreditsOf(month: string, currentYear: nat): Transaction -> bool {
    (t: Transaction) => ExtractMonth(t.date, currentYear) == Some(month) && t.txnType == Credit
  }

  function DebitsOf(month: string, currentYear: nat): Transaction -> bool {
    (t: Transaction) => ExtractMonth(t.date, currentYear) == Some(month) && t.txnType == Debit
  }

  /** A month kept by `SplitOf` holds its month's split. */
  lemma SplitOfAt(months: map<string, seq<Transaction>>, m: string)
    requires m in SplitOf(months)
    ensures m in months && SplitOf(months)[m] == TypeSplit(months[m])
  {
    assert m in SplitEach(months);
  }

  /**
   * A bank's deposits for a month are exactly its credits dated in that
   * month, and its withdrawals exactly its debits, in input order.
   */
  lemma DepositsAndWithdrawals(ts: seq<Transaction>, currentYear: nat, m: string)
    requires m in BankMonths(ts, currentYear)
    ensures DepositsKey in BankMonths(ts, currentYear)[m] ==>
              BankMonths(ts, currentYear)[m][DepositsKey] == Filter(ts, CreditsOf(m, currentYear))
    ensures WithdrawalsKey in BankMonths(ts, currentYear)[m] ==>
              BankMonths(ts, currentYear)[m][WithdrawalsKey] == Filter(ts, DebitsOf(m, currentYear))
  {
    var months := MonthGroups(ts, currentYear);
    SplitOfAt(months, m);
    MonthGroupOf(ts, currentYear, m);
    var group := months[m];
    TypeSplitShape(group);
    FilterFilter(ts, InMonth(m, currentYear), IsCredit, CreditsOf(m, currentYear));
    FilterFilter(ts, InMonth(m, currentYear), IsDebit, DebitsOf(m, currentYear));
  }

  /**
   * A credit or debit with a month, in the list of a bank, is filed under
   * that bank, that month and its type; a transaction of unknown type is
   * filed nowhere.
   */
  lemma FiledUnderItsMonth(byBank: map<string, seq<Transaction>>, currentYear: nat, b: string, t: Transaction)
    requires b in byBank && t in byBank[b] && HasMonth(t, currentYear) && t.txnType != Unknown
    ensures var r := BankMonthType(byBank, currentYear);
            var m := ExtractMonth(t.date, currentYear).value;
            var k := if t.txnType == Credit then DepositsKey else WithdrawalsKey;
            b in r && m in r[b] && k in r[b][m] && t in r[b][m][k]
  {
    var ts := byBank[b];
    var m := ExtractMonth(t.date, currentYear).value;
    MonthGroupsComplete(ts, currentYear, t);
    var months := MonthGroups(ts, currentYear);
    var group := months[m];
    TypeSplitShape(group);
    var k := if t.txnType == Credit then DepositsKey else WithdrawalsKey;
    if t.txnType == Credit {
      assert t in Filter(group, IsCredit);
    } else {
      assert t in Filter(group, IsDebit);
    }
    assert k in TypeSplit(group);
    assert m in SplitEach(months) && SplitEach(months)[m] == TypeSplit(group);
    var data := BankMonths(ts, currentYear);
    assert m in data && data[m] == TypeSplit(group);
    assert b in MonthsEach(byBank, currentYear) && MonthsEach(byBank, currentYear)[b] == data;
  }

  /** Everything in the result is a credit or a debit from that bank's list, dated in its month. */
  lemma OnlyFiledTransactions(byBank: map<string, seq<Transaction>>, currentYear: nat, b: string, m: string, k: string, t: Transaction)
    requires var r := BankMonthType(byBank, currentYear);
             b in r && m in r[b] && k in r[b][m] && t in r[b][m][k]
    ensures b in byBank && t in byBank[b]
    ensures ExtractMonth(t.date, currentYear) == Some(m)
    ensures t.txnType == (if k == DepositsKey then Credit else Debit)
  {
    var ts := byBank[b];
    var months := MonthGroups(ts, currentYear);
    assert BankMonthType(byBank, currentYear)[b][m] == TypeSplit(months[m]);
    TypeSplitShape(months[m]);
    MonthGroupsAreFilters(ts, currentYear);
    assert t in months[m];
  }
}
