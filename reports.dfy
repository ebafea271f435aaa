/** The report aggregator behind `reports.summary`: over entries already
    selected by period (and optionally jurisdiction) it totals income and
    expenses, breaks them down per jurisdiction and per category, and counts
    the entries. Each entry contributes `amountGbp || amount`. */
module Reports {
  import opened Basics
  import opened Ledger

  datatype Totals = Totals(income: int, expenses: int)

  /** The summary in major units (minor units / 100); the breakdowns stay in
      minor units, as the source returns them. */
  datatype ReportSummary = ReportSummary(
    totalIncome: real,
    totalExpenses: real,
    netProfit: real,
    byJurisdiction: map<string, Totals>,
    byCategory: map<string, int>,
    transactionCount: nat)

  // ---------------------------------------------------------------------------
  // Filters and folds

  /** `entries.filter(e => e.entryType === t)` */
  function OfType(entries: seq<LedgerEntry>, t: EntryType): seq<LedgerEntry> {
    if |entries| == 0 then []
    else
      var last := entries[|entries| - 1];
      OfType(entries[..|entries| - 1], t) + (if last.entryType == t then [last] else [])
  }

  function InJurisdiction(entries: seq<LedgerEntry>, j: string): seq<LedgerEntry> {
    if |entries| == 0 then []
    else
      var last := entries[|entries| - 1];
      InJurisdiction(entries[..|entries| - 1], j) + (if last.jurisdiction == j then [last] else [])
  }

  function InCategory(entries: seq<LedgerEntry>, c: string): seq<LedgerEntry> {
    if |entries| == 0 then []
    else
      var last := entries[|entries| - 1];
      InCategory(entries[..|entries| - 1], c) + (if last.category == c then [last] else [])
  }

  /** `.reduce((sum, e) => sum + (e.amountGbp || e.amount), 0)` */
  function AmountSum(entries: seq<LedgerEntry>): int {
    if |entries| == 0 then 0 else AmountSum(entries[..|entries| - 1]) + ReportedAmount(entries[|entries| - 1])
  }

  function IncomeTotal(entries: seq<LedgerEntry>): int { AmountSum(OfType(entries, Income)) }

  function ExpenseTotal(entries: seq<LedgerEntry>): int { AmountSum(OfType(entries, Expense)) }

  function Jurisdictions(entries: seq<LedgerEntry>): set<string> {
    set i | 0 <= i < |entries| :: entries[i].jurisdiction
  }

  function Categories(entries: seq<LedgerEntry>): set<string> {
    set i | 0 <= i < |entries| :: entries[i].category
  }

  // ---------------------------------------------------------------------------
  // Reference breakdowns: grouped sums, one key per value that occurs

  function JurisdictionBreakdown(entries: seq<LedgerEntry>): map<string, Totals> {
    map j | j in Jurisdictions(entries) ::
      Totals(IncomeTotal(InJurisdiction(entries, j)), ExpenseTotal(InJurisdiction(entries, j)))
  }

  function CategoryBreakdown(entries: seq<LedgerEntry>): map<string, int> {
    map c | c in Categories(entries) :: AmountSum(InCategory(entries, c))
  }

  function SummaryOf(entries: seq<LedgerEntry>): ReportSummary {
    var income := IncomeTotal(entries);
    var expenses := ExpenseTotal(entries);
    ReportSummary(income as real / 100.0, expenses as real / 100.0, (income - expenses) as real / 100.0,
                  JurisdictionBreakdown(entries), CategoryBreakdown(entries), |entries|)
  }

  // ---------------------------------------------------------------------------
  // The aggregation as the request handler performs it

  /** The row `e` lands in after it is added: its amount goes to income or to
      expenses, starting from zeros when the jurisdiction is new. */
  function PostedRow(byJurisdiction: map<string, Totals>, e: LedgerEntry): Totals {
    var row := if e.jurisdiction in byJurisdiction then byJurisdiction[e.jurisdiction] else Totals(0, 0);
    Totals(row.income + (if e.entryType == Income then ReportedAmount(e) else 0),
           row.expenses + (if e.entryType == Expense then ReportedAmount(e) else 0))
  }

  /** The category cell `e` lands in: `(byCategory[c] || 0) + amount`. */
  function PostedCell(byCategory: map<string, int>, e: LedgerEntry): int {
    (if e.category in byCategory then byCategory[e.category] else 0) + ReportedAmount(e)
  }

  /** The breakdowns after posting the entries one by one, left to right. */
  function FoldJurisdictions(entries: seq<LedgerEntry>): map<string, Totals> {
    if |entries| == 0 then map[]
    else
      var before := FoldJurisdictions(entries[..|entries| - 1]);
      var e := entries[|entries| - 1];
      before[e.jurisdiction := PostedRow(before, e)]
  }

  function FoldCategories(entries: seq<LedgerEntry>): map<string, int> {
    if |entries| == 0 then map[]
    else
      var before := FoldCategories(entries[..|entries| - 1]);
      var e := entries[|entries| - 1];
      before[e.category := PostedCell(before, e)]
  }

  /** The `forEach` callback: file one entry under its jurisdiction (creating
      a zero row first when the jurisdiction is new) and its category. */
  method PostEntry(byJurisdiction: map<string, Totals>, byCategory: map<string, int>, e: LedgerEntry)
    returns (byJurisdiction': map<string, Totals>, byCategory': map<string, int>)
    ensures byJurisdiction' == byJurisdiction[e.jurisdiction := PostedRow(byJurisdiction, e)]
    ensures byCategory' == byCategory[e.category := PostedCell(byCategory, e)]
  {
    byJurisdiction', byCategory' := byJurisdiction, byCategory;
    if e.jurisdiction !in byJurisdiction' {
      byJurisdiction' := byJurisdiction'[e.jurisdiction := Totals(0, 0)];
    }
    var amount := ReportedAmount(e);
    var row := byJurisdiction'[e.jurisdiction];
    if e.entryType == Income {
      byJurisdiction' := byJurisdiction'[e.jurisdiction := row.(income := row.income + amount)];
    } else {
      byJurisdiction' := byJurisdiction'[e.jurisdiction := row.(expenses := row.expenses + amount)];
    }
    byCategory' := byCategory'[e.category := (if e.category in byCategory' then byCategory'[e.category] else 0) + amount];
  }

  /** The `forEach` pass that fills `byJurisdiction` and `byCategory` in place. */
  method Breakdowns(entries: seq<LedgerEntry>)
    returns (byJurisdiction: map<string, Totals>, byCategory: map<string, int>)
    ensures byJurisdiction == JurisdictionBreakdown(entries)
    ensures byCategory == CategoryBreakdown(entries)
  {
    byJurisdiction := map[];
    byCategory := map[];
    for i := 0 to |entries|
      invariant byJurisdiction == FoldJurisdictions(entries[..i])
      invariant byCategory == FoldCategories(entries[..i])
    {
      assert entries[..i + 1][..i] == entries[..i];
      byJurisdiction, byCategory := PostEntry(byJurisdiction, byCategory, entries[i]);
    }
    assert entries[..|entries|] == entries;
    FoldIsJurisdictionBreakdown(entries);
    FoldIsCategoryBreakdown(entries);
  }

  method Summarize(entries: seq<LedgerEntry>) returns (summary: ReportSummary)
    ensures summary == SummaryOf(entries)
  {
    var income := AmountSum(OfType(entries, Income));
    var expenses := AmountSum(OfType(entries, Expense));
    var byJurisdiction, byCategory := Breakdowns(entries);
    summary := ReportSummary(income as real / 100.0, expenses as real / 100.0, (income - expenses) as real / 100.0,
                             byJurisdiction, byCategory, |entries|);
  }

  // ---------------------------------------------------------------------------
  // Lemmas about the folds

  lemma OfTypeAppend(entries: seq<LedgerEntry>, e: LedgerEntry, t: EntryType)
    ensures OfType(entries + [e], t) == OfType(entries, t) + (if e.entryType == t then [e] else [])
  {
    assert (entries + [e])[..|entries|] == entries;
  }

  lemma InJurisdictionAppend(entries: seq<LedgerEntry>, e: LedgerEntry, j: string)
    ensures InJurisdiction(entries + [e], j) == InJurisdiction(entries, j) + (if e.jurisdiction == j then [e] else [])
  {
    assert (entries + [e])[..|entries|] == entries;
  }

  lemma InCategoryAppend(entries: seq<LedgerEntry>, e: LedgerEntry, c: string)
    ensures InCategory(entries + [e], c) == InCategory(entries, c) + (if e.category == c then [e] else [])
  {
    assert (entries + [e])[..|entries|] == entries;
  }

  lemma AmountSumSingle(e: LedgerEntry)
    ensures AmountSum([e]) == ReportedAmount(e)
  {
    assert [e][..0] == [];
  }

  /** Summing is additive over concatenation. */
  lemma {:induction false} AmountSumAppend(a: seq<LedgerEntry>, b: seq<LedgerEntry>)
    ensures AmountSum(a + b) == AmountSum(a) + AmountSum(b)
    decreases |b|
  {
    if |b| == 0 {
      assert a + b == a;
    } else {
      var b' := b[..|b| - 1];
      assert (a + b)[..|a + b| - 1] == a + b';
      assert (a + b)[|a + b| - 1] == b[|b| - 1];
      AmountSumAppend(a, b');
    }
  }

  lemma {:induction false} InJurisdictionOutside(entries: seq<LedgerEntry>, j: string)
    requires j !in Jurisdictions(entries)
    ensures InJurisdiction(entries, j) == []
    decreases |entries|
  {
    if |entries| > 0 {
      var init := entries[..|entries| - 1];
      assert Jurisdictions(init) <= Jurisdictions(entries) by {
        forall x | x in Jurisdictions(init) ensures x in Jurisdictions(entries) {
          var i :| 0 <= i < |init| && init[i].jurisdiction == x;
          assert entries[i].jurisdiction == x;
        }
      }
      InJurisdictionOutside(init, j);
      assert entries[|entries| - 1].jurisdiction in Jurisdictions(entries);
    }
  }

  lemma {:induction false} InCategoryOutside(entries: seq<LedgerEntry>, c: string)
    requires c !in Categories(entries)
    ensures InCategory(entries, c) == []
    decreases |entries|
  {
    if |entries| > 0 {
      var init := entries[..|entries| - 1];
      assert Categories(init) <= Categories(entries) by {
        forall x | x in Categories(init) ensures x in Categories(entries) {
          var i :| 0 <= i < |init| && init[i].category == x;
          assert entries[i].category == x;
        }
      }
      InCategoryOutside(init, c);
      assert entries[|entries| - 1].category in Categories(entries);
    }
  }

  lemma JurisdictionsAppend(entries: seq<LedgerEntry>, e: LedgerEntry)
    ensures Jurisdictions(entries + [e]) == Jurisdictions(entries) + {e.jurisdiction}
  {
    var s := entries + [e];
    forall x | x in Jurisdictions(s) ensures x in Jurisdictions(entries) + {e.jurisdiction} {
      var i :| 0 <= i < |s| && s[i].jurisdiction == x;
      if i < |entries| { assert entries[i] == s[i]; }
    }
    forall x | x in Jurisdictions(entries) ensures x in Jurisdictions(s) {
      var i :| 0 <= i < |entries| && entries[i].jurisdiction == x;
      assert s[i] == entries[i];
    }
    assert s[|entries|] == e;
  }

  lemma CategoriesAppend(entries: seq<LedgerEntry>, e: LedgerEntry)
    ensures Categories(entries + [e]) == Categories(entries) + {e.category}
  {
    var s := entries + [e];
    forall x | x in Categories(s) ensures x in Categories(entries) + {e.category} {
      var i :| 0 <= i < |s| && s[i].category == x;
      if i < |entries| { assert entries[i] == s[i]; }
    }
    forall x | x in Categories(entries) ensures x in Categories(s) {
      var i :| 0 <= i < |entries| && entries[i].category == x;
      assert s[i] == entries[i];
    }
    assert s[|entries|] == e;
  }

  /** One more entry changes a jurisdiction's sums only if it belongs to it. */
  lemma JurisdictionRowStep(entries: seq<LedgerEntry>, e: LedgerEntry, j: string)
    ensures var sub, sub' := InJurisdiction(entries, j), InJurisdiction(entries + [e], j);
            var amount := if e.jurisdiction == j then ReportedAmount(e) else 0;
            && IncomeTotal(sub') == IncomeTotal(sub) + (if e.entryType == Income then amount else 0)
            && ExpenseTotal(sub') == ExpenseTotal(sub) + (if e.entryType == Expense then amount else 0)
  {
    InJurisdictionAppend(entries, e, j);
    var sub := InJurisdiction(entries, j);
    if e.jurisdiction == j {
      OfTypeAppend(sub, e, Income);
      OfTypeAppend(sub, e, Expense);
      AmountSumSingle(e);
      AmountSumAppend(OfType(sub, Income), [e]);
      AmountSumAppend(OfType(sub, Expense), [e]);
      assert OfType(sub, Income) + [] == OfType(sub, Income);
      assert OfType(sub, Expense) + [] == OfType(sub, Expense);
    } else {
      assert sub + [] == sub;
    }
  }

  lemma CategoryRowStep(entries: seq<LedgerEntry>, e: LedgerEntry, c: string)
    ensures AmountSum(InCategory(entries + [e], c))
            == AmountSum(InCategory(entries, c)) + (if e.category == c then ReportedAmount(e) else 0)
  {
    InCategoryAppend(entries, e, c);
    if e.category == c {
      AmountSumSingle(e);
      AmountSumAppend(InCategory(entries, c), [e]);
    } else {
      assert InCategory(entries, c) + [] == InCategory(entries, c);
    }
  }

  /** The row of a jurisdiction, as the reference breakdown defines it. */
  lemma JurisdictionRow(entries: seq<LedgerEntry>, j: string)
    ensures var sub := InJurisdiction(entries, j);
            var row := if j in JurisdictionBreakdown(entries) then JurisdictionBreakdown(entries)[j] else Totals(0, 0);
            row == Totals(IncomeTotal(sub), ExpenseTotal(sub))
  {
    if j !in Jurisdictions(entries) {
      InJurisdictionOutside(entries, j);
      assert IncomeTotal([]) == 0 && ExpenseTotal([]) == 0;
    }
  }

  /** Posting `e` into `before` yields, at key `j`, row `row` plus the part of `e` that lands there. */
  lemma PostedRowAt(before: map<string, Totals>, e: LedgerEntry, j: string, row: Totals)
    requires row == (if j in before then before[j] else Totals(0, 0))
    requires e.jurisdiction != j ==> j in before
    ensures var amount := if e.jurisdiction == j then ReportedAmount(e) else 0;
            before[e.jurisdiction := PostedRow(before, e)][j]
            == Totals(row.income + (if e.entryType == Income then amount else 0),
                      row.expenses + (if e.entryType == Expense then amount else 0))
  {
  }

  lemma JurisdictionCellStep(entries: seq<LedgerEntry>, e: LedgerEntry, j: string)
    requires j in Jurisdictions(entries + [e])
    ensures var before := JurisdictionBreakdown(entries);
            JurisdictionBreakdown(entries + [e])[j] == before[e.jurisdiction := PostedRow(before, e)][j]
  {
    var before, after := JurisdictionBreakdown(entries), JurisdictionBreakdown(entries + [e]);
    var sub, sub' := InJurisdiction(entries, j), InJurisdiction(entries + [e], j);
    var row := Totals(IncomeTotal(sub), ExpenseTotal(sub));
    assert after[j] == Totals(IncomeTotal(sub'), ExpenseTotal(sub')) by {
      JurisdictionRow(entries + [e], j);
    }
    assert row == (if j in before then before[j] else Totals(0, 0)) by {
      JurisdictionRow(entries, j);
    }
    assert e.jurisdiction != j ==> j in before by {
      JurisdictionsAppend(entries, e);
    }
    var amount := if e.jurisdiction == j then ReportedAmount(e) else 0;
    assert IncomeTotal(sub') == row.income + (if e.entryType == Income then amount else 0)
        && ExpenseTotal(sub') == row.expenses + (if e.entryType == Expense then amount else 0) by {
      JurisdictionRowStep(entries, e, j);
    }
    PostedRowAt(before, e, j, row);
  }

  /** Adding one entry changes exactly its own jurisdiction's row, by its amount. */
  lemma JurisdictionStep(entries: seq<LedgerEntry>, e: LedgerEntry)
    ensures JurisdictionBreakdown(entries + [e])
            == JurisdictionBreakdown(entries)[e.jurisdiction := PostedRow(JurisdictionBreakdown(entries), e)]
  {
    var before := JurisdictionBreakdown(entries);
    var after := JurisdictionBreakdown(entries + [e]);
    var expected := before[e.jurisdiction := PostedRow(before, e)];
    JurisdictionsAppend(entries, e);
    assert after.Keys == expected.Keys;
    forall j | j in after.Keys ensures after[j] == expected[j] {
      JurisdictionCellStep(entries, e, j);
    }
  }

  /** The cell of a category, as the reference breakdown defines it. */
  lemma CategoryCell(entries: seq<LedgerEntry>, c: string)
    ensures (if c in CategoryBreakdown(entries) then CategoryBreakdown(entries)[c] else 0)
            == AmountSum(InCategory(entries, c))
  {
    if c !in Categories(entries) {
      InCategoryOutside(entries, c);
      assert AmountSum([]) == 0;
    }
  }

  lemma CategoryCellStep(entries: seq<LedgerEntry>, e: LedgerEntry, c: string)
    requires c in Categories(entries + [e])
    ensures CategoryBreakdown(entries + [e])[c]
            == CategoryBreakdown(entries)[e.category := PostedCell(CategoryBreakdown(entries), e)][c]
  {
    CategoriesAppend(entries, e);
    CategoryRowStep(entries, e, c);
    CategoryCell(entries, c);
  }

  /** Adding one entry adds its amount to exactly its own category. */
  lemma CategoryStep(entries: seq<LedgerEntry>, e: LedgerEntry)
    ensures CategoryBreakdown(entries + [e])
            == CategoryBreakdown(entries)[e.category := PostedCell(CategoryBreakdown(entries), e)]
  {
    var before := CategoryBreakdown(entries);
    var after := CategoryBreakdown(entries + [e]);
    var expected := before[e.category := PostedCell(before, e)];
    CategoriesAppend(entries, e);
    assert after.Keys == expected.Keys;
    forall c | c in after.Keys ensures after[c] == expected[c] {
      CategoryCellStep(entries, e, c);
    }
  }

  /** The left fold of `PostEntry` over the entries computes the grouped sums. */
  lemma {:induction false} FoldIsJurisdictionBreakdown(entries: seq<LedgerEntry>)
    ensures FoldJurisdictions(entries) == JurisdictionBreakdown(entries)
    decreases |entries|
  {
    if |entries| == 0 {
      assert JurisdictionBreakdown(entries) == map[];
    } else {
      var init, e := entries[..|entries| - 1], entries[|entries| - 1];
      assert entries == init + [e];
      FoldIsJurisdictionBreakdown(init);
      JurisdictionStep(init, e);
    }
  }

  lemma {:induction false} FoldIsCategoryBreakdown(entries: seq<LedgerEntry>)
    ensures FoldCategories(entries) == CategoryBreakdown(entries)
    decreases |entries|
  {
    if |entries| == 0 {
      assert CategoryBreakdown(entries) == map[];
    } else {
      var init, e := entries[..|entries| - 1], entries[|entries| - 1];
      assert entries == init + [e];
      FoldIsCategoryBreakdown(init);
      CategoryStep(init, e);
    }
  }

  // ---------------------------------------------------------------------------
  // Sums over a breakdown

  /** The sum of a map's values, taken key by key in any order. */
  ghost function MapSum(m: map<string, int>): int
    decreases |m.Keys|
  {
    if m.Keys == {} then 0
    else
      var k :| k in m.Keys;
      m[k] + MapSum(m - {k})
  }

  function IncomeColumn(m: map<string, Totals>): map<string, int> {
    map k | k in m :: m[k].income
  }

  function ExpenseColumn(m: map<string, Totals>): map<string, int> {
    map k | k in m :: m[k].expenses
  }

  lemma {:induction false} MapSumRemove(m: map<string, int>, k: string)
    requires k in m.Keys
    ensures MapSum(m) == m[k] + MapSum(m - {k})
    decreases |m.Keys|
  {
    assert m.Keys != {};
    var x :| x in m.Keys && MapSum(m) == m[x] + MapSum(m - {x});
    if x != k {
      var mx, mk := m - {x}, m - {k};
      assert mx.Keys == m.Keys - {x} && mk.Keys == m.Keys - {k};
      assert MapSum(mx) == m[k] + MapSum(mx - {k}) by {
        assert k in mx.Keys && mx[k] == m[k];
        MapSumRemove(mx, k);
      }
      assert MapSum(mk) == m[x] + MapSum(mk - {x}) by {
        assert x in mk.Keys && mk[x] == m[x];
        MapSumRemove(mk, x);
      }
      assert mx - {k} == mk - {x};
    }
  }

  lemma MapSumUpdate(m: map<string, int>, k: string, v: int)
    ensures MapSum(m[k := v]) == MapSum(m) - (if k in m then m[k] else 0) + v
  {
    var m' := m[k := v];
    MapSumRemove(m', k);
    if k in m {
      MapSumRemove(m, k);
      assert m' - {k} == m - {k};
    } else {
      assert m' - {k} == m;
    }
  }

  /** One more entry adds its amount to the total of its own type. */
  lemma TotalsStep(entries: seq<LedgerEntry>, e: LedgerEntry)
    ensures IncomeTotal(entries + [e]) == IncomeTotal(entries) + (if e.entryType == Income then ReportedAmount(e) else 0)
    ensures ExpenseTotal(entries + [e]) == ExpenseTotal(entries) + (if e.entryType == Expense then ReportedAmount(e) else 0)
  {
    OfTypeAppend(entries, e, Income);
    OfTypeAppend(entries, e, Expense);
    AmountSumSingle(e);
    AmountSumAppend(OfType(entries, Income), [e]);
    AmountSumAppend(OfType(entries, Expense), [e]);
    assert OfType(entries, Income) + [] == OfType(entries, Income);
    assert OfType(entries, Expense) + [] == OfType(entries, Expense);
  }

  lemma ColumnsUpdate(m: map<string, Totals>, k: string, row: Totals)
    ensures IncomeColumn(m[k := row]) == IncomeColumn(m)[k := row.income]
    ensures ExpenseColumn(m[k := row]) == ExpenseColumn(m)[k := row.expenses]
  {
  }

  lemma IncomeRowsStep(init: seq<LedgerEntry>, e: LedgerEntry)
    requires MapSum(IncomeColumn(JurisdictionBreakdown(init))) == IncomeTotal(init)
    ensures MapSum(IncomeColumn(JurisdictionBreakdown(init + [e]))) == IncomeTotal(init + [e])
  {
    var before := JurisdictionBreakdown(init);
    var row := PostedRow(before, e);
    JurisdictionStep(init, e);
    ColumnsUpdate(before, e.jurisdiction, row);
    MapSumUpdate(IncomeColumn(before), e.jurisdiction, row.income);
    TotalsStep(init, e);
  }

  lemma ExpenseRowsStep(init: seq<LedgerEntry>, e: LedgerEntry)
    requires MapSum(ExpenseColumn(JurisdictionBreakdown(init))) == ExpenseTotal(init)
    ensures MapSum(ExpenseColumn(JurisdictionBreakdown(init + [e]))) == ExpenseTotal(init + [e])
  {
    var before := JurisdictionBreakdown(init);
    var row := PostedRow(before, e);
    JurisdictionStep(init, e);
    ColumnsUpdate(before, e.jurisdiction, row);
    MapSumUpdate(ExpenseColumn(before), e.jurisdiction, row.expenses);
    TotalsStep(init, e);
  }

  /** The jurisdiction rows add up to the income and expense totals. */
  lemma {:induction false} JurisdictionRowsSumToTotals(entries: seq<LedgerEntry>)
    ensures MapSum(IncomeColumn(JurisdictionBreakdown(entries))) == IncomeTotal(entries)
    ensures MapSum(ExpenseColumn(JurisdictionBreakdown(entries))) == ExpenseTotal(entries)
    decreases |entries|
  {
    if |entries| == 0 {
      assert JurisdictionBreakdown(entries) == map[];
      assert IncomeColumn(map[]) == map[];
      assert ExpenseColumn(map[]) == map[];
      assert OfType(entries, Income) == [] && OfType(entries, Expense) == [];
    } else {
      var init, e := entries[..|entries| - 1], entries[|entries| - 1];
      assert entries == init + [e];
      JurisdictionRowsSumToTotals(init);
      IncomeRowsStep(init, e);
      ExpenseRowsStep(init, e);
    }
  }

  /** The category totals add up to income plus expenses: categories mix both kinds. */
  lemma {:induction false} CategoriesSumToTotals(entries: seq<LedgerEntry>)
    ensures MapSum(CategoryBreakdown(entries)) == IncomeTotal(entries) + ExpenseTotal(entries)
    decreases |entries|
  {
    if |entries| == 0 {
      assert CategoryBreakdown(entries) == map[];
      assert OfType(entries, Income) == [] && OfType(entries, Expense) == [];
    } else {
      var init, e := entries[..|entries| - 1], entries[|entries| - 1];
      assert entries == init + [e];
      CategoriesSumToTotals(init);
      var before := CategoryBreakdown(init);
      var cell := PostedCell(before, e);
      CategoryStep(init, e);
      assert CategoryBreakdown(entries) == before[e.category := cell];
      MapSumUpdate(before, e.category, cell);
      assert MapSum(CategoryBreakdown(entries)) == MapSum(before) + ReportedAmount(e);
      TotalsStep(init, e);
      assert IncomeTotal(entries) + ExpenseTotal(entries) == IncomeTotal(init) + ExpenseTotal(init) + ReportedAmount(e);
    }
  }

  // ---------------------------------------------------------------------------
  // Properties of the summary

  /** No entries: zero totals, no rows, count 0. */
  lemma EmptyReport()
    ensures SummaryOf([]) == ReportSummary(0.0, 0.0, 0.0, map[], map[], 0)
  {
    assert JurisdictionBreakdown([]) == map[];
    assert CategoryBreakdown([]) == map[];
  }

  /** The summary is internally consistent: net profit is income less expenses,
      the count is the number of entries, the breakdowns have one key per
      jurisdiction and category that occurs, and their rows add up to the totals. */
  lemma SummaryIsConsistent(entries: seq<LedgerEntry>)
    ensures var summary := SummaryOf(entries);
            && summary.netProfit == summary.totalIncome - summary.totalExpenses
            && summary.transactionCount == |entries|
            && summary.byJurisdiction.Keys == (set i | 0 <= i < |entries| :: entries[i].jurisdiction)
            && summary.byCategory.Keys == (set i | 0 <= i < |entries| :: entries[i].category)
            && MapSum(IncomeColumn(summary.byJurisdiction)) as real / 100.0 == summary.totalIncome
            && MapSum(ExpenseColumn(summary.byJurisdiction)) as real / 100.0 == summary.totalExpenses
            && MapSum(summary.byCategory) as real / 100.0 == summary.totalIncome + summary.totalExpenses
  {
    JurisdictionRowsSumToTotals(entries);
    CategoriesSumToTotals(entries);
  }

  /** One entry contributes `amountGbp || amount` to its type's total, its
      jurisdiction's row and its category. */
  lemma SingleEntryReport(e: LedgerEntry)
    ensures IncomeTotal([e]) == (if e.entryType == Income then ReportedAmount(e) else 0)
    ensures ExpenseTotal([e]) == (if e.entryType == Expense then ReportedAmount(e) else 0)
    ensures JurisdictionBreakdown([e])
            == map[e.jurisdiction := if e.entryType == Income then Totals(ReportedAmount(e), 0)
                                     else Totals(0, ReportedAmount(e))]
    ensures CategoryBreakdown([e]) == map[e.category := ReportedAmount(e)]
  {
    assert [e][..0] == [];
    FoldIsJurisdictionBreakdown([e]);
    FoldIsCategoryBreakdown([e]);
    assert OfType([e], Income) == if e.entryType == Income then [e] else [];
    assert OfType([e], Expense) == if e.entryType == Expense then [e] else [];
    AmountSumSingle(e);
  }

  /** When the caller selected a single jurisdiction, the breakdown has that one row,
      and it holds the totals. */
  lemma SingleJurisdictionReport(entries: seq<LedgerEntry>, j: string)
    requires |entries| > 0
    requires forall i :: 0 <= i < |entries| ==> entries[i].jurisdiction == j
    ensures JurisdictionBreakdown(entries) == map[j := Totals(IncomeTotal(entries), ExpenseTotal(entries))]
  {
    OnlyJurisdiction(entries, j);
    AllInJurisdiction(entries, j);
    var m := JurisdictionBreakdown(entries);
    assert m.Keys == {j};
    assert m[j] == Totals(IncomeTotal(entries), ExpenseTotal(entries));
  }

  lemma OnlyJurisdiction(entries: seq<LedgerEntry>, j: string)
    requires |entries| > 0
    requires forall i :: 0 <= i < |entries| ==> entries[i].jurisdiction == j
    ensures Jurisdictions(entries) == {j}
  {
    assert entries[0].jurisdiction in Jurisdictions(entries);
    forall x | x in Jurisdictions(entries) ensures x == j {
      var i :| 0 <= i < |entries| && entries[i].jurisdiction == x;
    }
  }

  lemma {:induction false} AllInJurisdiction(entries: seq<LedgerEntry>, j: string)
    requires forall i :: 0 <= i < |entries| ==> entries[i].jurisdiction == j
    ensures InJurisdiction(entries, j) == entries
    decreases |entries|
  {
    if |entries| > 0 {
      AllInJurisdiction(entries[..|entries| - 1], j);
    }
  }
}
