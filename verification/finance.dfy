/**
 The finance dashboard: income and expense records, the income and expense
 totals and the net profit shown on the summary cards, and the record list
 filtered by a search term and a category.
 */
module Finance {
  import opened Seqs
  import opened Text

  datatype RecordKind = Income | Expense

  datatype FinanceRecord = FinanceRecord(
    id: string,
    kind: RecordKind,
    category: string,
    description: string,
    amount: int,
    date: int,
    reference: Option<string>)

  /** The five records the dashboard shows. */
  const MockFinanceData: seq<FinanceRecord> := [
    FinanceRecord("F001", Income, "Test Revenue", "CBC Test - Patient: John Doe", 2500, 1705276800000, Some("SAM12345678")),
    FinanceRecord("F002", Income, "Test Revenue", "Lipid Panel - Patient: Jane Smith", 3500, 1705190400000, Some("SAM12345679")),
    FinanceRecord("F003", Expense, "Equipment Maintenance", "Hematology Analyzer Service", 450, 1704844800000, Some("EQ001")),
    FinanceRecord("F004", Expense, "Supplies", "Blood Collection Tubes Purchase", 3750, 1704672000000, Some("INV001")),
    FinanceRecord("F005", Income, "Doctor Commission", "Commission from Dr. Ahmed", 1200, 1705017600000, Some("DOC001"))
  ]

  function Amount(r: FinanceRecord): int
  {
    r.amount
  }

  predicate IsIncome(r: FinanceRecord)
  {
    r.kind == Income
  }

  predicate IsExpense(r: FinanceRecord)
  {
    r.kind == Expense
  }

  /** The amount with the sign the ledger gives it: income counts up, expense down. */
  function Signed(r: FinanceRecord): int
  {
    if r.kind == Income then r.amount else -r.amount
  }

  /** `getTotalIncome`: the amounts of the income records added up. */
  function TotalIncome(records: seq<FinanceRecord>): int
  {
    Sum(Filter(records, IsIncome), Amount)
  }

  /** `getTotalExpenses`: the amounts of the expense records added up. */
  function TotalExpenses(records: seq<FinanceRecord>): int
  {
    Sum(Filter(records, IsExpense), Amount)
  }

  /** `getNetProfit`: income less expenses, which is the signed sum of every record. */
  function NetProfit(records: seq<FinanceRecord>): (n: int)
    ensures n == Sum(records, Signed)
  {
    NetIsSignedSum(records);
    TotalIncome(records) - TotalExpenses(records)
  }

  /** Every record is income or expense, so the two totals add up to the sum of all amounts. */
  lemma TotalsCoverAllRecords(records: seq<FinanceRecord>)
    ensures TotalIncome(records) + TotalExpenses(records) == Sum(records, Amount)
  {
    SumSplit(records, Amount, IsIncome, IsExpense);
  }

  /** The net profit is the signed sum of the records. */
  lemma NetIsSignedSum(records: seq<FinanceRecord>)
    ensures TotalIncome(records) - TotalExpenses(records) == Sum(records, Signed)
  {
    SumSplit(records, Signed, IsIncome, IsExpense);
    SignedOfIncome(Filter(records, IsIncome));
    SignedOfExpense(Filter(records, IsExpense));
  }

  lemma {:induction false} SignedOfIncome(s: seq<FinanceRecord>)
    requires forall i :: 0 <= i < |s| ==> s[i].kind == Income
    ensures Sum(s, Signed) == Sum(s, Amount)
    decreases |s|
  {
    if |s| > 0 {
      SignedOfIncome(s[..|s| - 1]);
    }
  }

  lemma {:induction false} SignedOfExpense(s: seq<FinanceRecord>)
    requires forall i :: 0 <= i < |s| ==> s[i].kind == Expense
    ensures Sum(s, Signed) == -Sum(s, Amount)
    decreases |s|
  {
    if |s| > 0 {
      SignedOfExpense(s[..|s| - 1]);
    }
  }

  /** Adding a record moves the net profit by its signed amount. */
  lemma NetAfterAppend(records: seq<FinanceRecord>, r: FinanceRecord)
    ensures NetProfit(records + [r]) == NetProfit(records) + Signed(r)
  {
    SumAppend(records, [r], Signed);
    assert Sum([r], Signed) == Signed(r) by { assert [r][..0] == []; }
  }

  /** The category choice "all" or exactly the record's category. */
  predicate CategoryMatches(r: FinanceRecord, categoryFilter: string)
  {
    categoryFilter == "all" || r.category == categoryFilter
  }

  predicate RecordMatches(r: FinanceRecord, term: string, categoryFilter: string)
  {
    (Matches(r.description, term) || Matches(r.category, term)) && CategoryMatches(r, categoryFilter)
  }

  /**
   `filteredRecords`: the records whose description or category contains the
   search term (ignoring ASCII case) and whose category the category choice
   admits, in order; with no term and "all" every record is shown.
   */
  function FilteredRecords(records: seq<FinanceRecord>, term: string, categoryFilter: string): (r: seq<FinanceRecord>)
    ensures forall x :: x in r <==> x in records && RecordMatches(x, term, categoryFilter)
    ensures forall x :: multiset(r)[x] == if RecordMatches(x, term, categoryFilter) then multiset(records)[x] else 0
    ensures IsSubsequence(r, records)
    ensures term == "" && categoryFilter == "all" ==> r == records
  {
    FilterIsSubsequence(records, (x: FinanceRecord) => RecordMatches(x, term, categoryFilter));
    FilterMultiplicity(records, (x: FinanceRecord) => RecordMatches(x, term, categoryFilter));
    EmptyTermMatchesAll();
    Filter(records, (x: FinanceRecord) => RecordMatches(x, term, categoryFilter))
  }

  /** The summary cards for the mock records: 7200 in, 4200 out, 3000 net. */
  lemma MockTotals()
    ensures TotalIncome(MockFinanceData) + TotalExpenses(MockFinanceData) == 11400
    ensures NetProfit(MockFinanceData) == 3000
    ensures TotalIncome(MockFinanceData) == 7200
  {
    MockSignedSum();
    MockAmountSum();
    TotalsCoverAllRecords(MockFinanceData);
  }

  lemma MockSignedSum()
    ensures Sum(MockFinanceData, Signed) == 3000
  {
    var d := MockFinanceData;
    assert Sum(d[..1], Signed) == 2500 by { assert d[..1][..0] == []; }
    assert Sum(d[..2], Signed) == 6000 by { assert d[..2][..1] == d[..1]; }
    assert Sum(d[..3], Signed) == 5550 by { assert d[..3][..2] == d[..2]; }
    assert Sum(d[..4], Signed) == 1800 by { assert d[..4][..3] == d[..3]; }
    assert d[..4] == d[..|d| - 1];
  }

  lemma MockAmountSum()
    ensures Sum(MockFinanceData, Amount) == 11400
  {
    var d := MockFinanceData;
    assert Sum(d[..1], Amount) == 2500 by { assert d[..1][..0] == []; }
    assert Sum(d[..2], Amount) == 6000 by { assert d[..2][..1] == d[..1]; }
    assert Sum(d[..3], Amount) == 6450 by { assert d[..3][..2] == d[..2]; }
    assert Sum(d[..4], Amount) == 10200 by { assert d[..4][..3] == d[..3]; }
    assert d[..4] == d[..|d| - 1];
  }
}
