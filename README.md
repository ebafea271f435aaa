# Accounting core: payroll, report summary and GBP normalisation

This project models the three computations at the heart of the accounting
service's request handlers, and proves properties about them.

- **Payroll** (`payroll.calculate`). Outside the Netherlands nothing is
  withheld. For `"NL"`, the handler uses the newest active `wage_tax` and
  `social_security` rules:
  - Wage tax runs the bracket loop over the taxable income. That is gross
    salary, less a rounded 30% under the 30% ruling.
  - Social security applies the employee rate plus the employer rate to gross
    salary. The gross is first capped at `maxIncome * 100`.
  - Net salary is gross minus both.
  - The handler stores integer minor units and returns every figure divided
    by 100.
- **Report summary** (`reports.summary`). Over the entries already selected,
  it computes four things:
  - the income total and the expense total;
  - a per-jurisdiction breakdown. An in-place `forEach` fills it, creating a
    zero row when a jurisdiction is first seen;
  - a per-category breakdown;
  - the entry count.

  Every entry contributes `amountGbp || amount`, so a null or zero GBP amount
  falls back to the original amount. Totals are returned in major units.
- **GBP normalisation** (`bookkeeping.create`). A new entry's GBP amount is its
  own amount, except when two conditions hold: the currency is not `"GBP"`,
  and a non-empty exchange-rate string is given. In that case it is
  `Math.round(amount * parseFloat(rate))`. `parseFloat` is modelled exactly
  on decimal text.

Files:
- `basics.dfy` holds `Option` and `Math.round`. Rounding is modelled exactly
  as `floor(x + 1/2)` on rationals.
- `ledger.dfy` holds the stored entry and the `amountGbp || amount` rule.
- `payroll.dfy` holds the rule records, the bracket loop and the handler.
- `reports.dfy` holds the report aggregation.
- `bookkeeping.dfy` holds `parseFloat` and the entry normaliser.

The two imperative parts of the source stay imperative: the bracket loop and
the `forEach` that mutates the two breakdown maps. Each is a method with a
loop, proved equal to a specification function. The properties are then
proved about those functions:
- The bracket loop equals `ProgressiveTax`, the sum of the rounded
  per-bracket taxes. This function mirrors the loop's own running total, so
  it is a restatement of the loop rather than an independent definition; the
  lemmas about it (bounds, monotonicity, the seeded figures) carry the
  content.
- The `forEach` equals grouped sums: one key per jurisdiction or category that
  occurs, each holding the sum over that group's entries. This definition is
  independent of the loop's order of updates.

Rates and exchange rates are exact `real`s. Amounts are unbounded integers.

The wage-tax bracket thresholds are compared against cents exactly as stored.
The seeded rule's upper threshold `75518` describes euros, but the code
compares it against a gross salary in cents. The model follows the code. So
for a gross of 500000 cents the seeded rules give:
- wage tax 238136, not `round(500000 * 0.3710)`;
- wage tax 163886 under the ruling.

`Payroll.SeededExample` and `Payroll.SeededResponse` state these figures.

## Model

| member | source | states |
|---|---|---|
| Basics.Round | server/routers.ts:419 | `Math.round`: the result is the integer within half a unit of the argument; halves round up |
| Payroll.FindRule | server/routers.ts:398-399 | `rules.find` by rule type: `None` exactly when no rule has that type; otherwise the first rule of that type, with none of that type before it |
| Payroll.FoundRuleIsNewest | server/db.ts:138-151 | the rules arrive ordered by `validFrom` descending, so the rule found has the latest `validFrom` of its type |
| Payroll.AccumulateWageTax | server/routers.ts:415-420 | the bracket loop computes `ProgressiveTax`: each bracket taxes, at its rate and rounded, the part of the income above its threshold and below the next |
| Payroll.ComputeWageTax | server/routers.ts:401-421 | wage tax is the newest wage-tax rule's bracket tax on gross less a rounded 30% under the ruling; it is 0 without a rule |
| Payroll.ComputeSocialSecurity | server/routers.ts:423-428 | social security is the rounded sum of both rates times the capped gross; it is 0 without a rule |
| Payroll.Calculate | server/routers.ts:386-432 | the handler yields `PayrollOf`: zero withholding outside NL; for NL, net = gross - wage tax - social security |
| Payroll.Respond | server/routers.ts:455-461 | the response holds every stored figure divided by 100, and the net identity holds in major units too |
| Payroll.NoWithholdingOutsideNL | server/routers.ts:387-391 | a jurisdiction other than `"NL"` is charged no wage tax and no social security, and net equals gross |
| Payroll.NetIsGrossLessWithholding | server/routers.ts:431 | in NL, net is gross less both components, with no clamp at zero |
| Payroll.BracketIncomeBounds | server/routers.ts:417-418 | in an ascending table a bracket's slice is never negative and at most the bracket's width; for the last bracket, or when the next threshold is 0 (`\|\| Infinity`), the slice is unbounded |
| Payroll.NoTaxFromBracketAbove | server/routers.ts:418-419 | in an ascending table, an income at or below a bracket's threshold gets a zero slice and zero tax from that bracket |
| Payroll.BracketIncomeMonotone | server/routers.ts:418 | a higher income never gives a smaller bracket slice |
| Payroll.BracketTaxMonotone | server/routers.ts:419 | with a non-negative rate, a higher income never gives less tax in a bracket |
| Payroll.NextThreshold | server/routers.ts:417 | `brackets[i + 1]?.threshold \|\| Infinity`: no bound exactly when there is no next bracket or its threshold is 0; otherwise the next threshold, which is non-zero |
| Payroll.BracketIncomeIsClamped | server/routers.ts:418 | on any table, a bracket's slice is at most the income above its threshold (clamped at 0), at most the gap to the next threshold when there is one, and all of the income above the threshold when there is none |
| Payroll.BracketTaxIsRounded | server/routers.ts:419 | a bracket's tax is within half a unit of its slice times its rate |
| Payroll.TaxableIncome | server/routers.ts:406-412 | without the ruling the taxable income is gross; with it, the amount taken off is within half a unit of 30% of gross |
| Payroll.WageTaxNonNegative | server/routers.ts:415-420 | in an ascending table with non-negative rates the accumulated wage tax is never negative |
| Payroll.UnsortedTableCanTaxNegative | server/routers.ts:415-420 | without ascending thresholds the loop can give negative tax: brackets (100, 0.5), (50, 0.5) on 60 give -20 |
| Payroll.WageTaxMonotone | server/routers.ts:415-420 | with non-negative rates, a higher taxable income never gives less wage tax |
| Payroll.RulingTaxableIncomeBounds | server/routers.ts:406-412 | for a non-negative gross, taxable income under the ruling lies between 0 and gross |
| Payroll.RulingNeverRaisesWithholding | server/routers.ts:406-420 | for a non-negative gross and non-negative rates, the ruling never raises wage tax and never lowers net |
| Payroll.SocialSecurityIgnoresRuling | server/routers.ts:423-428 | social security does not depend on the ruling |
| Payroll.SocialSecurityIsCapped | server/routers.ts:425-427 | the social-security base is at most `maxIncome * 100` and at most gross, and the contribution is the rounded base times both rates |
| Payroll.MissingRuleGivesZero | server/routers.ts:401-428 | with no wage-tax rule, wage tax is 0; with no social-security rule, social security is 0 |
| Payroll.ZeroNextThresholdIsUnbounded | server/routers.ts:417 | a next threshold of 0 counts as no upper bound, so an earlier bracket can tax all income |
| Payroll.SeededExample | server/seed.mjs:60-114 | the seeded rules on 500000 cents give wage tax 238136 and 163886 with the ruling; social security is 160000 either way |
| Payroll.SeededResponse | server/accounting.test.ts:135-183 | the returned figures: gross 5000, positive wage tax and social security, net between 0 and gross; with the ruling, less wage tax and more net |
| Ledger.ReportedAmount | server/routers.ts:501 | `amountGbp \|\| amount`: the GBP amount when it is present and non-zero, otherwise the entry's own amount |
| Reports.PostEntry | server/routers.ts:496-509 | one `forEach` step: the entry's jurisdiction row (zero when new) gains its amount under income or expenses, and its category cell (0 when new) gains its amount |
| Reports.Breakdowns | server/routers.ts:493-509 | the `forEach` pass yields exactly the grouped sums: one row per jurisdiction that occurs and one cell per category that occurs |
| Reports.Summarize | server/routers.ts:485-518 | the summary holds both totals over 100, net profit (income - expenses) / 100, both breakdowns and the entry count |
| Reports.OfTypeAppend | server/routers.ts:485-491 | filtering by type distributes over appending an entry |
| Reports.AmountSumAppend | server/routers.ts:485-491 | the `reduce` sum is additive over concatenation |
| Reports.JurisdictionStep | server/routers.ts:496-506 | adding an entry changes only its own jurisdiction's row, by its amount in the column of its type |
| Reports.CategoryStep | server/routers.ts:508 | adding an entry changes only its own category's cell, by its amount |
| Reports.FoldIsJurisdictionBreakdown | server/routers.ts:496-506 | posting entries one by one gives the grouped jurisdiction sums |
| Reports.FoldIsCategoryBreakdown | server/routers.ts:508 | posting entries one by one gives the grouped category sums |
| Reports.MapSumUpdate | server/routers.ts:508 | overwriting one key changes a map's sum by the difference |
| Reports.TotalsStep | server/routers.ts:485-491 | one more entry adds its amount to its own type's total and leaves the other total alone |
| Reports.JurisdictionRowsSumToTotals | server/routers.ts:485-506 | the jurisdiction rows' income column sums to the income total, and the expense column to the expense total |
| Reports.CategoriesSumToTotals | server/routers.ts:485-508 | the category cells sum to income plus expenses |
| Reports.EmptyReport | server/routers.ts:485-518 | no entries: zero totals, empty breakdowns, count 0 |
| Reports.SummaryIsConsistent | server/routers.ts:511-518 | net profit = income - expenses; the count is the number of entries; the breakdown keys are exactly the jurisdictions and categories that occur; the rows and cells add up to the totals |
| Reports.SingleEntryReport | server/routers.ts:496-508 | one entry adds `amountGbp \|\| amount` to its type's total, its jurisdiction's row and its category |
| Reports.SingleJurisdictionReport | server/routers.ts:477-518 | when every entry is in jurisdiction `j` (a query filtered by jurisdiction), the breakdown has exactly the row `j`, holding the totals |
| Reports.InJurisdictionOutside | server/routers.ts:496-506 | a jurisdiction that occurs in no entry has an empty group |
| Bookkeeping.TrimStart | server/routers.ts:256 | `parseFloat` skips leading white space: the result is a suffix of the text that does not start with white space |
| Bookkeeping.DigitPrefix | server/routers.ts:256 | the longest run of digits at the start of the text |
| Bookkeeping.FractionValue | server/routers.ts:256 | the digits after the point read as a value in [0, 1) |
| Bookkeeping.DecimalValue | server/routers.ts:256 | `whole.fraction` lies between `whole` and `whole + 1` |
| Bookkeeping.ParseUnsigned | server/routers.ts:256 | a number is read exactly when the text starts with a digit, or with a point followed by a digit |
| Bookkeeping.ParseFloat | server/routers.ts:256 | `parseFloat` gives a number exactly when, after leading white space and one optional sign, the text starts with a digit or with a point and a digit; NaN otherwise. A number implies a digit in the text |
| Bookkeeping.ParseFloatOfWhole | server/routers.ts:256 | digits followed by anything but a digit or a point read as exactly their whole-number value |
| Bookkeeping.ParseUnsignedOfFraction | server/routers.ts:256 | a point and digits with no whole part read as the fraction alone |
| Bookkeeping.TrimStartOfSpaces | server/routers.ts:256 | removing leading white space ignores any white space put in front |
| Bookkeeping.ParseFloatSkipsSpace | server/routers.ts:256 | leading white space does not change what `parseFloat` reads |
| Bookkeeping.ParseFloatOfPlus | server/routers.ts:256 | a plus sign before a number is dropped |
| Bookkeeping.ParseFloatOfDecimal | server/routers.ts:256 | `whole.fraction` followed by a non-digit parses to exactly `whole.fraction` |
| Bookkeeping.ParseFloatOfMinus | server/routers.ts:256 | a leading minus negates the unsigned reading |
| Bookkeeping.DigitPrefixOfDigits | server/routers.ts:256 | parsing digits stops at the first non-digit |
| Bookkeeping.Convert | server/routers.ts:256 | the converted amount is within half a unit of `amount * rate`; it is NaN exactly when the rate text has no number |
| Bookkeeping.AmountGbp | server/routers.ts:253-257 | a GBP entry, or one without a non-empty rate, keeps its amount; otherwise the result is within half a unit of amount times the parsed rate, and NaN exactly when the rate text has no number |
| Bookkeeping.NewEntry | server/routers.ts:259-271 | an entry is stored exactly when its GBP amount is a number, and it carries the input fields and that GBP amount |
| Bookkeeping.NoConversionKeepsAmount | server/routers.ts:254-255 | a GBP entry, or an entry without an exchange rate or with an empty one, keeps its own amount |
| Bookkeeping.ConversionUsesParsedRate | server/routers.ts:255-256 | otherwise the amount is converted at the parsed rate |
| Bookkeeping.StoredEntryReportsConverted | server/routers.ts:259-271 | the stored entry carries the GBP amount and its own amount; the report reads the GBP amount unless it is 0, when it falls back to the amount |
| Bookkeeping.ParsesPlainRate | server/routers.ts:256 | `"0.85"` parses to 0.85 |
| Bookkeeping.ParsesShortRate | server/routers.ts:256 | `"0.4"` parses to 0.4 |
| Bookkeeping.ParsesRateBeforeText | server/routers.ts:256 | `"1.17 EUR"` parses to 1.17, since parsing stops at the space |
| Bookkeeping.ParsesNegativeRate | server/routers.ts:256 | `"-1.17"` parses to -1.17 |
| Bookkeeping.ParsesWholeRate | server/routers.ts:256 | `"1"` parses to 1, a rate without a point |
| Bookkeeping.ParsesWholeRateBeforeText | server/routers.ts:256 | `"2 EUR"` parses to 2 |
| Bookkeeping.ParsesSpacedRate | server/routers.ts:256 | `" 0.85"` parses to 0.85 |
| Bookkeeping.ParsesSignedFraction | server/routers.ts:256 | `"+.5"` parses to 0.5 |
| Bookkeeping.RejectsWord | server/routers.ts:256 | `"rate"` has no number, so it is NaN |
| Bookkeeping.ConversionExamples | server/routers.ts:254-257 | 10000 cents at `"0.85"` give 8500 pence; 1 cent at `"0.85"` gives 1 penny; a rate of `"rate"` gives NaN |
| Bookkeeping.ZeroConversionReportsOriginal | server/routers.ts:254-257 | 1 cent at `"0.4"` is stored as 0 pence, and the report counts the original 1 cent |

## Left out

- Persistence, authentication and I/O. The handlers' database reads and
  writes are not modelled: the payroll record insert, the entry insert and
  the audit logs. The selected rules and entries are parameters.
- Rule selection by date. `getActiveTaxRules` is not modelled: it filters on
  `validFrom <= now` and does not check `validTo`. Its ordering by
  `validFrom` descending is the `NewestFirst` precondition of
  `Payroll.FoundRuleIsNewest`.
- The NL jurisdiction lookup. When no NL jurisdiction is on record, the model
  receives an empty rule list, which gives the same zeros.
- The period and jurisdiction query behind `reports.summary` is not modelled.
  Its result is the `entries` parameter.
- JSON parsing of rule details. A rule's details are a typed variant. Two
  JSON shapes cannot be represented: a social-security record that lacks a
  field, which gives NaN in the source, and bracket thresholds or rates of
  the wrong type.
- IEEE-754 doubles. Rates, products and the /100 conversions are exact
  rationals, so floating-point rounding of, for example, `amount * 0.85` is
  not captured.
- JavaScript numbers are unbounded integers here. Amounts and thresholds are
  assumed to be integers, as their integer columns store them.
- Bookkeeping.ParseFloat: does not model exponents (`"1e2"`), `"Infinity"`
  or white space beyond ASCII space, tab, LF, CR, VT and FF. So the model
  reads `"1e2"` as 1, and gives NaN for `"Infinity"` and for a number after a
  non-breaking space, where `parseFloat` gives a number. A NaN GBP amount
  does not produce an entry (`NewEntry` returns `None`), because what the
  store does with NaN is outside the model.
- Property keys of JavaScript objects. A jurisdiction or category named after
  an `Object.prototype` member (such as `"constructor"`) reads as an existing
  value in the source and breaks the breakdown. The model uses a plain map
  and does not capture this.
- Rule types. The source stores a rule's type as free text beside its JSON
  details; the seeded Dutch VAT rule, for example, is typed `"btw_vat"`. The
  model instead derives the type from the variant of the details and knows
  six fixed types. This matters for nothing modelled, since the handler reads
  only the first `wage_tax` and `social_security` rules.
- The 30% ruling rule's stored `taxFreePercentage` is not modelled as an
  input. The handler uses the constant 0.30, and so does the model.
- Payroll.WageTaxNonNegative: requires ascending thresholds, which the
  handler does not check. On an unsorted table the handler gives negative
  tax, as `Payroll.UnsortedTableCanTaxNegative` shows.
- Order of keys in the breakdowns. The source's breakdowns are JavaScript
  objects. Their keys list in insertion order, with integer-like keys
  first, and the report page renders them in that order. A Dafny map has no
  order, so the model captures the breakdowns' contents only, not their
  order.
- Payroll.SeededResponse: the test's comparisons are proved for the
  seeded rules only, not for every rule set. `Payroll.RulingNeverRaisesWithholding`
  proves only the weak form (never more tax) in general.
