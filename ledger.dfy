/** A bookkeeping entry as stored: amounts in integer minor units, `amountGbp`
    nullable. */
module Ledger {
  import opened Basics

  datatype EntryType = Income | Expense

  datatype LedgerEntry = LedgerEntry(
    entryType: EntryType,
    amount: int,
    currency: string,
    amountGbp: Option<int>,
    exchangeRate: Option<string>,
    jurisdiction: string,
    category: string)

  /** `e.amountGbp || e.amount`: the GBP amount, unless it is null or 0. */
  function ReportedAmount(e: LedgerEntry): (r: int)
    ensures e.amountGbp.Some? && e.amountGbp.value != 0 ==> r == e.amountGbp.value
    ensures e.amountGbp.None? || e.amountGbp == Some(0) ==> r == e.amount
  {
    if e.amountGbp.Some? && e.amountGbp.value != 0 then e.amountGbp.value else e.amount
  }
}
