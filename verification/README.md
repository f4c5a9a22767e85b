# Loan and investor calculations, modelled in Dafny

This project models the calculation core of a small loan-management
application. It proves properties of that model.

The core of the model is the **loan engine** (`PlanCalculations`). It derives
what a loan is worth today from the loan's terms, its repayment transactions
and the current date:
- the amount paid, the final due date, the total liability and the balance;
- the profit, the next due date and the status.

It handles three products:
- **Finance**: flat monthly interest over a fixed term.
- **Tender**: a discount loan repaid within a number of days.
- **InterestRate**: interest compounding month by month on what is unpaid.

For InterestRate there are two definitions:
- a monthly schedule, defined as a recursive function;
- the original `while` loop, written as a method and proved equal to that function.

The **investor engine** (`InvestorCalculations`) accrues a flat monthly profit
on the invested principal. From it, the model derives:
- missed months;
- the status: On Track, Delayed, or Closed (terminal);
- a summary over all investors.

Around these engines sit string helpers:
- HTML escaping and file-name cleaning (`Sanitizer`);
- CSV cell quoting with formula-injection guarding, plus the assembly of the
  loan export (`CsvUtils`); the export is proved to read back cell by cell,
  as section 2 of RFC 4180 prescribes;
- user-agent classification (`UserAgent`).

The rest of the model covers:
- the loan and investor forms' validation and normalisation (`LoanForm`,
  `InvestorForm`);
- dashboard selectors and totals (`AdminDashboard`, `RepaymentCard`,
  `LoanTypeSummary`, `InvestorsTable`);
- the loans table's row-selection state (`LoansTable.Selection`, a class);
- overdue-notification de-duplication (`NotificationContext`);
- bar-graph scaling (`SimpleBarGraph`).

Modelling conventions:
- **Dates** are abstract `Date(year, month 0..11, day)` values. They are ordered
  by `MonthIndex = 12*year + month` and then by day. Adding months keeps the
  day of the month; adding days steps through real month lengths.
- **The current date** is a parameter `now` (or `today`).
- **Money** is `real`, so the 0.01 thresholds are exact comparisons.
- **Translations and number/date formatting** are function parameters
  (`tr`, `money`, `date`).
- **Number parsing** is a parameter returning an optional number.

Shared helpers: `Seqs` holds sums, filters and subsequences; `Text` holds
trimming, ASCII lower-casing and substring search; `Dates` holds the calendar;
`Money` holds `Max` and the 0.01 `Epsilon`; `Wrappers` holds `Option`.

## Model

| member | source | states |
|---|---|---|
| PlanCalculations.AmountPaid | backend/src/utils/planCalculations.js:1-4 | An absent or empty transaction list has paid nothing |
| PlanCalculations.AmountPaidRecord | backend/src/utils/planCalculations.js:3 | Recording one more transaction raises the amount paid by exactly its amount |
| PlanCalculations.AmountPaidPermutation | backend/src/utils/planCalculations.js:3 | The amount paid does not depend on the order of the transactions |
| PlanCalculations.FinalDueDate | backend/src/utils/planCalculations.js:6-38 | No final due date exactly when the duration field the loan's type needs (months, days, value and unit) is missing or zero; otherwise the date is strictly after the start date |
| PlanCalculations.ScheduleRecurrence | backend/src/utils/planCalculations.js:58-81 | Each elapsed month sets the principal to principal + principal·rate/100 − the payments dated in that month |
| PlanCalculations.ScheduleStep | backend/src/utils/planCalculations.js:59-78 | One loop iteration: principal and overdue flag of month k+1 from those of month k, with the payments between the month's first and last day |
| PlanCalculations.OverdueStep | backend/src/utils/planCalculations.js:73-78 | The overdue flag after a month is the flag before it, or that month's interest was not fully paid |
| PlanCalculations.OverdueIffSomeMonthUnpaid | backend/src/utils/planCalculations.js:58-81 | After k months the overdue flag is set if and only if some month j < k left interest unpaid (> 0) |
| PlanCalculations.ScheduleDependsOnMonthlyPayments | backend/src/utils/planCalculations.js:64-69 | Two transaction lists with the same payments in every elapsed month give the same schedule |
| PlanCalculations.PaidInMonth | backend/src/utils/planCalculations.js:64-69 | Definition: the payments dated from the month's first day to its last day; its properties are stated by `ScheduleDependsOnMonthlyPayments` and `PaidBetweenNonNegative` |
| PlanCalculations.ElapsedMonths | backend/src/utils/planCalculations.js:53-58 | The loop count: the start month advanced by that many months is the current month, and there are none when the current month is not after the start month |
| PlanCalculations.Schedule | backend/src/utils/planCalculations.js:47-81 | Definition: principal and overdue flag after k months; its properties are stated by `ScheduleRecurrence`, `ScheduleStep` and `OverdueIffSomeMonthUnpaid` |
| PlanCalculations.PaidBetweenNonNegative | backend/src/utils/planCalculations.js:64-69 | With non-negative amounts, the payments in a window are non-negative |
| PlanCalculations.NextMonthlyDueDate | backend/src/utils/planCalculations.js:99-102 | The next instalment falls on the start day in this month or the next, strictly after now; next month only once the start day is reached |
| PlanCalculations.InterestRateDetails | backend/src/utils/planCalculations.js:40-107 | Balance never negative; Completed has balance 0 and no due date; otherwise the balance is at least 0.01, the next due date is after now, and the status is Overdue exactly when the schedule's flag is set |
| PlanCalculations.CompoundElapsedMonths | backend/src/utils/planCalculations.js:47-81 | The month loop from the start month up to the current month ends in exactly the state of the schedule after the elapsed months |
| PlanCalculations.ComputeInterestRateDetails | backend/src/utils/planCalculations.js:40-107 | The imperative computation (early exit, month loop, this month's payments, clamp, next due date) yields exactly the schedule's details |
| PlanCalculations.InterestRateOutcome | backend/src/utils/planCalculations.js:84-102 | Past the early exit: below 0.01 the result is exactly {0, none, Completed}; otherwise the balance is the compounded principal less this month's payments |
| PlanCalculations.TotalAmount | backend/src/utils/planCalculations.js:110-129 | Tender total is the loan amount; InterestRate total is the schedule's balance plus everything paid |
| PlanCalculations.FinanceTotalCoversPrincipal | backend/src/utils/planCalculations.js:112-116 | With non-negative amount and rate, the Finance total is at least the principal |
| PlanCalculations.Balance | backend/src/utils/planCalculations.js:131-138 | The balance is never negative; InterestRate uses the schedule's balance; the others owe max(0, total − paid) |
| PlanCalculations.BalanceWithoutTransactions | backend/src/utils/planCalculations.js:135-137 | A Finance or Tender loan with no payments owes its whole (non-negative) total |
| PlanCalculations.Profit | backend/src/utils/planCalculations.js:140-157 | Finance profit is total − given; Tender profit is loan − given; InterestRate profit is never negative |
| PlanCalculations.FinanceProfitIsInterestPlusDiscount | backend/src/utils/planCalculations.js:142-145 | Finance profit = loan·rate/100·months + (loan − given), missing fields read as 0 |
| PlanCalculations.NextDueDate | backend/src/utils/planCalculations.js:159-167 | No due date once the balance is ≤ 0; otherwise the final due date for Finance and Tender, a date after now for InterestRate |
| PlanCalculations.Status | backend/src/utils/planCalculations.js:169-198 | Completed if and only if balance ≤ 0.01; Overdue if and only if not completed and (past the final due date, or an InterestRate schedule that is overdue); Active otherwise |
| PlanCalculations.InterestRateOverdueIffUnpaidMonth | backend/src/utils/planCalculations.js:187-194 | An open InterestRate loan not past its final due date is Overdue exactly when some elapsed month left interest unpaid |
| PlanCalculations.IgnoredTransactions | backend/src/utils/planCalculations.js:64-89 | Transactions dated before the start month or after now leave the InterestRate details unchanged |
| PlanCalculations.TransactionOrderIrrelevant | backend/src/utils/planCalculations.js:41 | Any reordering of the transactions gives the same InterestRate details and amount paid, so the sort is immaterial |
| PlanCalculations.PayingTheBalanceCompletes | backend/src/utils/planCalculations.js:169-173 | A payment of at least the balance (for InterestRate, dated this month and not after today) leaves balance 0 and status Completed |
| PlanCalculations.PayingInterestRateBalance | backend/src/utils/planCalculations.js:84-97 | Such a payment drives the InterestRate details to exactly {0, none, Completed} |
| InvestorCalculations.TotalPaid | utils/investorCalculations.ts:43 | No payments means nothing paid |
| InvestorCalculations.MonthsCompleted | utils/investorCalculations.ts:32-37 | 12·Δyear + Δmonth, one less when today's day is before the start day, floored at 0 |
| InvestorCalculations.MonthsCompletedCountsAnniversaries | utils/investorCalculations.ts:32-37 | The k-th month anniversary (k ≥ 1) of the start has been reached if and only if k ≤ months completed |
| InvestorCalculations.Metrics | utils/investorCalculations.ts:12-68 | A Closed investor gets status Closed, 0 missed months, balance 0, monthly profit 0 and accumulated profit max(0, paid − investment); an open one gets its accrual over the months completed |
| InvestorCalculations.Accrual | utils/investorCalculations.ts:29-67 | Monthly profit = amount·rate/100; accumulated = monthly·months (flat); Delayed if and only if pending > 0.01; balance = amount + max(0, pending); missed months as below |
| InvestorCalculations.MissedMonths | utils/investorCalculations.ts:49 | 0 when the monthly profit is not positive; otherwise the n with n·monthly ≤ max(0, pending) < (n+1)·monthly |
| InvestorCalculations.MissedMonthsIsFloor | utils/investorCalculations.ts:49 | Missed months equal floor(max(0, pending) / monthly) |
| InvestorCalculations.MetricsIgnoreInvestmentType | utils/investorCalculations.ts:12-68 | The metrics never depend on the investment type |
| InvestorCalculations.ClosedIgnoresDates | utils/investorCalculations.ts:13-24 | A Closed investor's metrics depend on neither the start date nor today |
| InvestorCalculations.PaymentReducesPending | utils/investorCalculations.ts:40-46 | A payment of any type raises the total paid by its amount and leaves the accrued profit unchanged |
| InvestorCalculations.Summary | utils/investorCalculations.ts:80-104 | The summed pending profit is never negative |
| InvestorCalculations.CalculateInvestorSummary | utils/investorCalculations.ts:80-104 | The forEach accumulation equals the sums over investors; the investor count is the list length; P/L = paid − invested; pending ≥ 0 |
| InvestorCalculations.SummaryOrderIrrelevant | utils/investorCalculations.ts:90-98 | The summary does not depend on the order of the investors |
| Sanitizer.Entity | utils/sanitizer.ts:3-12 | Each escaped character becomes an `&…;` entity free of markup characters; every other character is kept as it is |
| Sanitizer.Escape | utils/sanitizer.ts:24 | The escaped text contains none of the characters `<`, `>`, `"`, `'`, `/`, backtick and `=`, and is never shorter than the input |
| Sanitizer.Sanitize | utils/sanitizer.ts:18-25 | An absent text gives the empty string; the result never contains a markup character |
| Sanitizer.EscapeAppend | utils/sanitizer.ts:24 | Escaping works character by character: it distributes over concatenation |
| Sanitizer.UnescapeEscape | utils/sanitizer.ts:3-24 | Decoding the entities of an escaped text gives the original text back, so escaping loses nothing |
| Sanitizer.CollapseSpaces | utils/sanitizer.ts:38 | No whitespace is left after runs are replaced by `_` |
| Sanitizer.CollapseRun | utils/sanitizer.ts:38 | A whole whitespace run becomes a single `_` |
| Sanitizer.TrimStartRun | utils/sanitizer.ts:37 | Trimming drops exactly the leading whitespace run |
| Sanitizer.SanitizeForFilename | utils/sanitizer.ts:31-40 | An absent text gives `download`; the result contains only ASCII letters, digits, `_`, `.` and `-` |
| Sanitizer.SafeNameUnchanged | utils/sanitizer.ts:36-39 | A text made only of file-name characters passes through unchanged |
| Sanitizer.SanitizeForFilenameIdempotent | utils/sanitizer.ts:36-39 | Cleaning a cleaned file name changes nothing |
| CsvUtils.Guarded | utils/csvUtils.ts:17-20 | A leading `=`, `+`, `-` or `@` gets a `'` prefix, anything else is kept, and the result never starts with a formula character |
| CsvUtils.DoubleQuotes | utils/csvUtils.ts:23 | Doubling quotes never shortens the text |
| CsvUtils.SanitizeCell | utils/csvUtils.ts:10-24 | Every cell is wrapped in `"`; an absent cell is `""`; a present one is its guarded text with quotes doubled |
| CsvUtils.Headers | utils/csvUtils.ts:27-39 | The header record has 11 cells |
| CsvUtils.Row | utils/csvUtils.ts:41-58 | Every loan record has 11 cells |
| CsvUtils.Rows | utils/csvUtils.ts:41-59 | One record per loan, in order, 11 cells each |
| CsvUtils.Records | utils/csvUtils.ts:61-62 | The header record followed by one record per loan, all of 11 cells |
| CsvUtils.Lines | utils/csvUtils.ts:58 | Each record becomes its own line, in order |
| CsvUtils.Line | utils/csvUtils.ts:58 | Definition: the sanitized cells joined with `,`; read back by `ReadLine` |
| CsvUtils.JoinLines | utils/csvUtils.ts:62 | Definition: the lines joined with a newline; read back by `ReadLines` |
| CsvUtils.CsvContent | utils/csvUtils.ts:61-62 | Definition: the `data:text/csv;charset=utf-8,` prefix before the export text, whose read-back is stated by `ExportRoundTrip` |
| CsvUtils.ReadDoubledQuotes | utils/csvUtils.ts:23 | Reading a quote-doubled text up to its closing quote gives the text back |
| CsvUtils.ReadSanitizedCell | utils/csvUtils.ts:10-24 | Reading a sanitized cell gives back its guarded text (empty for an absent cell) and stops at the separator |
| CsvUtils.UnquoteSanitizedCell | utils/csvUtils.ts:17-23 | Un-quoting a cell gives the original text, with `'` prepended exactly in the formula case |
| CsvUtils.ReadLine | utils/csvUtils.ts:58 | A comma-joined line reads back as the texts of its cells |
| CsvUtils.ReadLines | utils/csvUtils.ts:61-62 | Newline-joined lines read back as the records' texts |
| CsvUtils.ExportRoundTrip | utils/csvUtils.ts:26-62 | The whole export reads back as the header texts followed by each loan's cell texts |
| LoanForm.ValidateForm | pages/LoanForm.tsx:71-83 | Tender is rejected if and only if given ≥ loan; Finance and InterestRate only when given > loan and given > 0; no type, no validation error |
| LoanForm.FinalGivenAmount | pages/LoanForm.tsx:93-96 | Finance and InterestRate with given ≤ 0 submit given = loan amount; otherwise the entered given amount |
| LoanForm.Submit | pages/LoanForm.tsx:85-110 | Validation errors are reported first, then a missing type; a submission happens exactly when both pass and carries the entered amounts, dates and names with the final given amount |
| LoanForm.SubmitKeepsOnlyTypeFields | pages/LoanForm.tsx:105-109 | The submitted record carries only the fields of its type, copied from the form, and null for all others |
| LoanForm.SubmittedGivenWithinLoan | pages/LoanForm.tsx:71-96 | A submitted Tender gives less than it is repaid; a submitted Finance or InterestRate loan with a positive amount gives a positive amount at most the loan |
| LoanForm.PlanOf | pages/LoanForm.tsx:98-110 | The flat record becomes the engine's plan of the same type |
| LoanForm.Flatten | pages/LoanForm.tsx:98-110 | A plan flattens to a record of its type that carries only that type's fields |
| LoanForm.FlattenPlanOf | pages/LoanForm.tsx:98-110 | Converting a type-clean record to a plan and back is the identity |
| LoanForm.PlanOfFlatten | pages/LoanForm.tsx:98-110 | Flattening a plan and converting back is the identity |
| LoanForm.NewLoan | pages/LoanForm.tsx:116 | The created loan has the submitted type and amounts and no transactions |
| LoanForm.ResetForTypeChange | pages/LoanForm.tsx:58-69 | Editing keeps the form; otherwise amounts 0, rate 2, months 1, days 1, value 12, unit Months; name, phone, type and date are kept |
| LoanForm.ResetIdempotent | pages/LoanForm.tsx:58-69 | Resetting twice is resetting once |
| LoanForm.FinancePreviewsMatchEngine | pages/LoanForm.tsx:126-135 | The Finance total and profit previews equal the engine's total and profit of the submitted loan |
| LoanForm.TenderPreviewMatchesEngine | pages/LoanForm.tsx:137 | The Tender profit preview equals the engine's profit of the submitted loan |
| LoanForm.FirstMonthInterestMatchesSchedule | pages/LoanForm.tsx:138 | The first-month preview is the interest the InterestRate schedule charges in its first month |
| LoanForm.TotalFinanceAmount | pages/LoanForm.tsx:126-130 | Definition of the Finance total preview; `FinancePreviewsMatchEngine` states that it equals the engine's total |
| LoanForm.TotalFinanceProfit | pages/LoanForm.tsx:132-135 | Definition of the Finance profit preview; `FinancePreviewsMatchEngine` states that it equals the engine's profit |
| LoanForm.TotalTenderProfit | pages/LoanForm.tsx:137 | Definition of the Tender profit preview; `TenderPreviewMatchesEngine` states that it equals the engine's profit |
| LoanForm.FirstMonthInterest | pages/LoanForm.tsx:138 | Definition of the first-month interest preview; `FirstMonthInterestMatchesSchedule` states that it is the schedule's first-month interest |
| InvestorForm.InitialState | components/InvestorForm.tsx:21-28 | The new form is empty: no name, amount 0, no type, rate 0, today's date, On Track |
| InvestorForm.Submit | components/InvestorForm.tsx:55-70 | Refused if and only if the name is empty, amount ≤ 0, no type or rate ≤ 0; adds the form's fields, or spreads them over the edited investor and keeps its id and payments |
| InvestorForm.InitialStateRefused | components/InvestorForm.tsx:57 | An untouched new form is refused |
| InvestorForm.EditUnchangedIsIdentity | components/InvestorForm.tsx:66 | Saving an unchanged edit gives back the same investor |
| AdminDashboard.ByType | pages/AdminDashboard.tsx:23-25 | `All` keeps the list; a type filter keeps only loans of that type |
| AdminDashboard.FilteredLoans | pages/AdminDashboard.tsx:20-38 | No longer than the list; every result has the filtered type and matches a non-blank search |
| AdminDashboard.AllWithBlankSearchIsIdentity | pages/AdminDashboard.tsx:21-30 | `All` with a blank or whitespace search returns the list unchanged |
| AdminDashboard.FilteredIsSubsequence | pages/AdminDashboard.tsx:20-38 | The result keeps the loans' order (a subsequence) |
| AdminDashboard.FilteredMembership | pages/AdminDashboard.tsx:20-38 | A loan is shown if and only if it is listed, has the filtered type and matches a non-blank search by trimmed lower-cased name or, when a phone is present, by phone |
| AdminDashboard.ComputeOverallSummary | pages/AdminDashboard.tsx:40-52 | The forEach totals are the sums over all loans of profit, amount paid and balance; the pending total is never negative |
| AdminDashboard.TotalsOrderIrrelevant | pages/AdminDashboard.tsx:45-49 | The totals do not depend on the order of the loans |
| RepaymentCard.NameLeqTotal | components/RepaymentCard.tsx:30 | Any two names compare one way or the other |
| RepaymentCard.NameLeqTransitive | components/RepaymentCard.tsx:30 | The name order is transitive |
| RepaymentCard.InsertByName | components/RepaymentCard.tsx:30 | Inserting into a sorted list gives a sorted permutation of the list plus the loan |
| RepaymentCard.SortByName | components/RepaymentCard.tsx:30 | The result is sorted by customer name and a permutation of the input |
| RepaymentCard.ActiveLoans | components/RepaymentCard.tsx:27-31 | Sorted by name and a permutation of the loans of the card's type that are not Completed |
| RepaymentCard.ActiveLoansMembership | components/RepaymentCard.tsx:27-29 | A loan is active if and only if it is listed, of the card's type and not Completed |
| RepaymentCard.SearchResults | components/RepaymentCard.tsx:33-41 | At most 5 results; none for a blank term; each is an active loan matching by lower-cased name or trimmed phone |
| RepaymentCard.BlankSearchNoResults | components/RepaymentCard.tsx:34-36 | An empty or whitespace-only search has no results |
| RepaymentCard.SearchResultsKeepOrder | components/RepaymentCard.tsx:37-40 | The results keep the active loans' order |
| RepaymentCard.SearchResultsAreFirstMatches | components/RepaymentCard.tsx:37-40 | The results are all matches when there are at most 5, else the first 5 |
| RepaymentCard.Submit | components/RepaymentCard.tsx:67-77 | Refused unless a loan is selected and the amount is non-empty; records a payment if and only if the amount also parses to a positive number, for the selected loan's id |
| RepaymentCard.ShownBalance | components/RepaymentCard.tsx:95 | The shown balance is the selected loan's engine balance, 0 without a selection, never negative |
| RepaymentCard.OverBalanceNoteDoesNotBlock | components/RepaymentCard.tsx:177 | When the over-balance note shows, the amount exceeds the balance and the payment is still recorded |
| RepaymentCard.OverBalanceNote | components/RepaymentCard.tsx:177 | Definition: a loan is selected and the parsed amount exceeds its shown balance; `OverBalanceNoteDoesNotBlock` states that the payment is recorded all the same |
| LoanTypeSummary.Accumulator.constructor | components/LoanTypeSummary.tsx:24 | All four totals start at 0 |
| LoanTypeSummary.Accumulator.Add | components/LoanTypeSummary.tsx:17-22 | One loan adds its profit, principal, given amount and amount paid to the four fields |
| LoanTypeSummary.Summarize | components/LoanTypeSummary.tsx:15-26 | The reduction over the accumulator equals the four sums over the loans |
| LoanTypeSummary.SummaryStep | components/LoanTypeSummary.tsx:16-23 | The totals of one more loan are the previous totals plus that loan's shares |
| LoanTypeSummary.EmptySummary | components/LoanTypeSummary.tsx:24 | No loans, all four totals 0 |
| LoanTypeSummary.SummaryOrderIrrelevant | components/LoanTypeSummary.tsx:16-25 | The totals do not depend on the order of the loans |
| LoanTypeSummary.SummaryAppend | components/LoanTypeSummary.tsx:16-25 | The totals of two lists together are the sums of their totals |
| LoanTypeSummary.GraphData | components/LoanTypeSummary.tsx:28-32 | Three bars: Given, Collected, Profit, in that order, with the matching totals and captions |
| InvestorsTable.NextPayout | components/InvestorsTable.tsx:14-23 | The next payout is strictly after today, and is the start date itself when that is after today |
| InvestorsTable.NextPayoutIsFirst | components/InvestorsTable.tsx:19-21 | Every earlier monthly step of the start date is on or before today, so the payout is the first one after today |
| InvestorsTable.CalculateNextPayoutDate | components/InvestorsTable.tsx:14-23 | The while loop stops at exactly that payout, strictly after today |
| InvestorsTable.StatusChipsDistinct | components/InvestorsTable.tsx:41-48 | On Track, Delayed and Closed get distinct chip classes |
| InvestorsTable.StatusChip | components/InvestorsTable.tsx:41-48 | Definition: one chip class per status; `StatusChipsDistinct` states that the classes are distinct |
| InvestorsTable.Row | components/InvestorsTable.tsx:68-86 | P/L = paid − invested, shown as a gain if and only if ≥ 0; Closed investors have no next payout and a disabled Pay button; otherwise the payout is after today; the missed-months alert and status chip follow the metrics |
| InvestorsTable.ClosedRow | components/InvestorsTable.tsx:72-86 | A Closed investor shows the Closed chip and no missed-months alert |
| LoansTable.AllIds | components/LoansTable.tsx:27 | The set of all shown loans' ids: each id is in it, nothing else is, and it has at most as many ids as loans |
| LoansTable.AllIdsSize | components/LoansTable.tsx:27 | With distinct ids, there are exactly as many ids as loans |
| LoansTable.Toggle | components/LoansTable.tsx:34-42 | Toggling flips the id's membership and leaves every other id as it was |
| LoansTable.ToggleTwice | components/LoansTable.tsx:34-42 | Toggling the same id twice restores the selection |
| LoansTable.ToggleCommutes | components/LoansTable.tsx:34-42 | The order of two toggles does not matter |
| LoansTable.Selection.constructor | components/LoansTable.tsx:22-23 | Nothing selected and the confirmation closed |
| LoansTable.Selection.SelectAll | components/LoansTable.tsx:25-32 | Checked selects every shown loan's id; unchecked empties the selection |
| LoansTable.Selection.SelectOne | components/LoansTable.tsx:34-42 | The selection becomes the toggled selection |
| LoansTable.Selection.DeleteSelected | components/LoansTable.tsx:44-48 | The confirmation opens only when something is selected |
| LoansTable.Selection.ConfirmDelete | components/LoansTable.tsx:50-54 | The selected ids are deleted, then the selection is empty and the confirmation closed |
| LoansTable.HeaderStatesExclusive | components/LoansTable.tsx:97-99 | The header box is never both checked and indeterminate, and is neither with nothing selected |
| LoansTable.SelectAllChecksHeader | components/LoansTable.tsx:97 | After select-all on loans with distinct ids the header box is checked |
| LoansTable.HeaderCheckedByStaleSelection | components/LoansTable.tsx:97 | The count-based rule shows the box checked for a selection that misses a shown loan |
| LoansTable.HeaderChecked | components/LoansTable.tsx:97 | Definition: some loans are shown and as many ids are selected; its properties are stated by `HeaderStatesExclusive` and `SelectAllChecksHeader` |
| LoansTable.HeaderIndeterminate | components/LoansTable.tsx:99 | Definition: some but fewer ids than loans are selected; `HeaderStatesExclusive` states that it excludes the checked state |
| LoansTable.AllShownSelectedAgreesWithSelection | components/LoansTable.tsx:97 | Checked by contents holds after select-all and fails as soon as any shown row is unticked |
| LoansTable.RowHighlight | components/LoansTable.tsx:56-68 | Completed rows first, then Overdue, then Active rows whose next due date is today, else none |
| LoansTable.InterestRateNeverDueToday | components/LoansTable.tsx:60-65 | An InterestRate row is never highlighted as due today, since its next due date is after today |
| LoansTable.DueTodayIsFinalDueDate | components/LoansTable.tsx:60-65 | A Finance or Tender row is due today if and only if it is open and its final due date is today |
| LoansTable.HighlightClass | components/LoansTable.tsx:58-65 | Definition: the class of each highlight; `HighlightClassesDistinct` states that it is determined by the highlight |
| LoansTable.HighlightClassesDistinct | components/LoansTable.tsx:58-65 | Completed, overdue, due-today and plain rows get distinct classes, and only a plain row gets none |
| NotificationContext.UnreadCount | contexts/NotificationContext.tsx:47 | Never more than the number of notifications |
| NotificationContext.UnreadCountIsUnreadList | contexts/NotificationContext.tsx:47 | The unread count is the length of the list of notifications not yet read |
| NotificationContext.UnreadLoanIds | contexts/NotificationContext.tsx:54 | The set of non-empty loan ids of the unread notifications |
| NotificationContext.LastFour | contexts/NotificationContext.tsx:64 | The last four characters of the id, or all of a shorter one |
| NotificationContext.OverdueNotice | contexts/NotificationContext.tsx:61-66 | A new notice carries the loan's id and is unread |
| NotificationContext.NoticesOf | contexts/NotificationContext.tsx:59-66 | One notice per loan, in order |
| NotificationContext.BatchIdsSnoc | contexts/NotificationContext.tsx:67 | Adding a notice adds its loan id to the ids already covered |
| NotificationContext.AddNotice | contexts/NotificationContext.tsx:60-67 | Pushing a notice for an uncovered id keeps the batch free of duplicates and of already-notified ids |
| NotificationContext.CollectNotices | contexts/NotificationContext.tsx:57-69 | The forEach builds a batch with one notice per id at most, none for an id with an unread notification, and every overdue loan covered |
| NotificationContext.NoticeOfOverdueLoan | contexts/NotificationContext.tsx:56 | Every notice of the batch belongs to a loan whose status is Overdue |
| NotificationContext.CheckOverdueLoans | contexts/NotificationContext.tsx:49-79 | Skipped if and only if there is no user, no loans, or loading is in progress; otherwise the batch is free of duplicates, unread, new, made of overdue loans' notices, and covers every overdue loan; the create call is made if and only if the batch is non-empty |
| UserAgent.TokenNameAt | components/AdminSettingsModal.tsx:93 | At one position the alternatives are tried in the order Edg, Chrome, Firefox, Safari, Opera; a name is found only when it is followed by `/` and a version character |
| UserAgent.IsMobile | components/AdminSettingsModal.tsx:92 | Definition: one of the eight markers occurs in the lower-cased user agent; `IsMobileIgnoresCase` states that the test ignores case |
| UserAgent.IsMobileIgnoresCase | components/AdminSettingsModal.tsx:92 | Lower-casing the user agent first does not change the mobile test, as the `i` flag promises |
| UserAgent.FirstToken | components/AdminSettingsModal.tsx:93 | The leftmost position that holds a browser token, with no token before it |
| UserAgent.BrowserOf | components/AdminSettingsModal.tsx:93-97 | `Browser` with no token; `Edge` for an `Edg` match; otherwise the matched name |
| UserAgent.FirstClose | components/AdminSettingsModal.tsx:94 | The first `)` at or after a position |
| UserAgent.ParenGroup | components/AdminSettingsModal.tsx:94 | The text between the leftmost `(` that is followed by at least one character other than `)` and then a `)`, with no such group before it; none exactly when no such group exists |
| UserAgent.Describe | components/AdminSettingsModal.tsx:109 | Definition: browser, ` Mobile` when mobile, ` on `, OS; `DescribeInjective` states that the text determines all three |
| UserAgent.OsOf | components/AdminSettingsModal.tsx:99-107 | No group gives `Unknown OS`; otherwise Windows, macOS, Linux and Android are chosen in that priority order, each if and only if the earlier names are absent and its own is present |
| UserAgent.ParseUserAgent | components/AdminSettingsModal.tsx:89-110 | An empty user agent gives `Unknown Device`; otherwise `<browser>[ Mobile] on <os>` |
| UserAgent.SplitAtSpace | components/AdminSettingsModal.tsx:109 | A space-free prefix followed by a space is determined by the whole text |
| UserAgent.DescribeInjective | components/AdminSettingsModal.tsx:109 | The description determines browser, mobile flag and OS |
| UserAgent.DescriptionParts | components/AdminSettingsModal.tsx:96-107 | The browser and the OS are always among the names the code can produce |
| UserAgent.FirstTokenIs | components/AdminSettingsModal.tsx:93 | A token with no token before it is the leftmost match |
| UserAgent.EdgeReportedAsChrome | components/AdminSettingsModal.tsx:93-97 | A user agent with `Chrome/` before `Edg/` is reported as Chrome |
| UserAgent.EdgeExample | components/AdminSettingsModal.tsx:93-97 | `Chrome/120.0 Edg/120.0` is reported as Chrome |
| UserAgent.BrowserIntended | components/AdminSettingsModal.tsx:93-97 | Without an `Edg/` token it agrees with the code |
| UserAgent.EdgeRecognised | components/AdminSettingsModal.tsx:93-97 | Any `Edg/` token anywhere gives `Edge` |
| UserAgent.AndroidReportedAsLinux | components/AdminSettingsModal.tsx:102-105 | The group `Linux; Android 10` contains Android yet is reported as Linux |
| UserAgent.OsIntended | components/AdminSettingsModal.tsx:99-107 | A group mentioning Android gives `Android`; otherwise it agrees with the code |
| UserAgent.ParseUserAgentIntended | components/AdminSettingsModal.tsx:89-110 | The description built from the corrected browser and OS |
| UserAgent.AndroidRecognised | components/AdminSettingsModal.tsx:104-105 | The corrected rule reports `Linux; Android 10` as Android |
| SimpleBarGraph.MaxValue | components/SimpleBarGraph.tsx:14 | At least 0 and at least every value; either 0 or one of the values |
| SimpleBarGraph.ScaledIntoTrack | components/SimpleBarGraph.tsx:19 | A value between 0 and the maximum scales into [0, 100]; the maximum itself scales to 100 |
| SimpleBarGraph.PercentageBounds | components/SimpleBarGraph.tsx:14-19 | Every non-negative bar lies in [0, 100]; a bar with the maximal value is at 100 |
| SimpleBarGraph.Percentage | components/SimpleBarGraph.tsx:19 | With a positive maximum, the percentage times the maximum is 100 times the value; 0 otherwise |
| SimpleBarGraph.EmptyScale | components/SimpleBarGraph.tsx:19 | With a maximum of 0 every bar is at 0 |
| SimpleBarGraph.Labels | components/SimpleBarGraph.tsx:30-35 | The label is inside the bar if and only if the percentage exceeds 25, and beside it otherwise |
| SimpleBarGraph.LabelShownOnce | components/SimpleBarGraph.tsx:30-35 | The formatted value is drawn exactly once, inside or beside the bar |

## Left out

- JavaScript `Date` arithmetic: `setMonth`/`setDate` overflow (day 31 rolling into the next month), time of day and time zones (the `23:59:59` month end, `setHours`), and parsing of date strings. Dates are calendar days; adding months keeps the day of the month.
- The clock: `new Date()` is replaced by a `now`/`today` parameter.
- IEEE floating point: amounts are exact reals, so rounding, `NaN` and `Number()`/`parseFloat` coercion are not modelled; parsing is a parameter that returns an optional number.
- `toLocaleString`/`toLocaleDateString` formatting and the `t()` translations are function parameters; their output is not modelled.
- The regular-expression engine: the patterns in `sanitize`, `sanitizeForFilename`, `sanitizeCell` and `parseUserAgent` are written out as character maps and position searches.
- Case folding (`toLowerCase`, the `/i` flag) covers ASCII letters only.
- `localeCompare` is modelled as code-point order of the names.
- The `isNaN(startDate)` branch of `calculateFinalDueDate` and the `default` branches for an unknown loan type: a loan always has a valid start date and one of the three types.
- The sort of the transactions by date in `getInterestRateCalculationDetails` is omitted; `PlanCalculations.TransactionOrderIrrelevant` shows the outcome does not depend on it.
- PlanCalculations.IgnoredTransactions: stated for a loan with a positive amount that has started by the current month (a loan with no amount takes the early exit depending on whether there are transactions, and a payment before a future start month may fall in the current month).
- PlanCalculations.FinalDueDate: the contract states when a date exists and that it follows the start date, not which date it is (weeks as seven days and so on are in its body only).
- PlanCalculations.TotalAmount: the Finance total is stated through `FinanceProfitIsInterestPlusDiscount` and `FinanceTotalCoversPrincipal`, not in its own contract.
- InvestorCalculations.Metrics: for an open investor the contract refers to `Accrual`, whose contract states the formulas.
- InvestorCalculations.TotalPaid: the contract states only the empty case; that every payment counts whatever its type is stated by `PaymentReducesPending`.
- CsvUtils.Headers: the contract states only that there are 11 header cells, not their captions.
- CsvUtils.Row: the contract states only that there are 11 cells, not which engine value fills each.
- The `data:text/csv` prefix, `encodeURI` and the DOM download in `generateCSV`; the export's text and its reading back are modelled.
- HTTP, database and WebSocket code, the API service, and the React effects that schedule `checkOverdueLoans` after two seconds; the notifications' API calls are abstracted into the returned batch and a flag.
- `syncLoanStatus` in the loan controller and the validator middleware are not part of this model; the validator's positive amounts appear only as lemma preconditions.
- UserAgent.OsOf: the contract states the Windows, macOS, Linux and Android branches; the iOS and Unknown OS fallbacks are in its body only.

## Findings

| source | as written | input that shows it | evidently intended | confidence | as-written member | corrected member |
|---|---|---|---|---|---|---|
| components/AdminSettingsModal.tsx:93-97 | The browser is the leftmost token among Edg, Chrome, Firefox, Safari, Opera | `Chrome/120.0 Edg/120.0` (Edge user agents carry `Chrome/` before `Edg/`) is reported as Chrome | Edge is recognised whenever an `Edg/` token occurs, since `Edg` is mapped to `Edge` | medium, not executed | UserAgent.EdgeReportedAsChrome | UserAgent.EdgeRecognised |
| components/AdminSettingsModal.tsx:99-107 | Linux is tested before Android | the group `Linux; Android 10` of an Android user agent is reported as Linux | Android devices are reported as Android | medium, not executed | UserAgent.AndroidReportedAsLinux | UserAgent.AndroidRecognised |
| components/LoansTable.tsx:97 | The header box is checked when the number of selected ids equals the number of shown loans | shown loans `A`, `B` with a selection `{A, C}` left over from before filtering shows checked although `B` is not selected | checked exactly when every shown loan is selected | low, not executed | LoansTable.HeaderCheckedByStaleSelection | LoansTable.AllShownSelectedAgreesWithSelection |
