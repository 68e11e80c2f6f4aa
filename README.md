# financas-pro in Dafny

This project models the core of financas-pro, a personal-finance single-page app. Users record income, expenses and investments, pay a credit card whose statements close on a configurable day, and track savings goals. Charts, a projection table and an AI goal planner read the same ledger.

The model covers these parts of the app:

- **Billing-cycle rules.** The closing day is between 1 and 28. It decides which statement a card expense belongs to, what the next closing is, and the *effective date* that reports and projections file the expense under.
- **The data hook (`useFinanceData`).** It is modelled as the class `FinanceData.FinanceStore` with in-memory tables. Its operations are:
  - adding a transaction, with the expansion of a recurrence into rows;
  - editing one row or a whole series, and deleting one row or the rest of a series;
  - deleting a category or a payment method, and reassigning the rows that used it;
  - crediting a goal, and changing the settings.
- **The screens' computations.**
  - Dashboard: month window, card-statement lists and variations.
  - Reports: time buckets, accumulated evolution, net worth and the category summary.
  - Projection: month-by-month saldo.
  - Transactions: period filters, search and grouping by day.
  - Budgets, goals and the goal forms.
  - The AI goal wizard as a state machine.
  - Settings modals and the category and payment-method managers.
  - Login.
- **The text-level parts of the AI service.** These are the total-amount extraction, the question filter, the chat-history window and the audio MIME clean-up.

Conventions:

- Money is integer cents.
- A date is `Calendar.Civil(year, month, day, second-of-day)`, with months counted from 0 as in JavaScript.
- `Calendar.MakeDate` normalises out-of-range days and months the way `new Date(y, m, d)` does.
- Helper modules:
  - `Seqs`: filter, sum, sort and dedup, with their lemmas;
  - `Groups`: insertion-ordered grouping folds;
  - `Text`: digit parsing, `toFixed(2)`, lower-casing, trimming and substring search;
  - `Wrappers`: `Option`.

## Model

| member | source | states |
|---|---|---|
| Calendar.MakeDate | hooks/useFinanceData.ts:196-198 | the normalised date's day number is the first day of month 12y+m plus d−1, whatever the range of m and d; the time of day is kept |
| Calendar.MakeDateValid | hooks/useFinanceData.ts:196-198 | a date that is already valid is left unchanged by normalisation |
| Calendar.MonthOverflow | hooks/useFinanceData.ts:198 | stepping 31 January by one month gives 3 March, or 2 March in a leap year (JS `setMonth` overflow) |
| Calendar.DayZeroIsLastOfPreviousMonth | components/Dashboard.tsx:237 | day 0 of a month is the last day of the previous month |
| Calendar.WeekNumber | components/Reports.tsx:33-38 | the week number is in 1..53 |
| Calendar.ThursdayOf | components/Reports.tsx:33-38 | the Thursday of a date's Monday-to-Sunday week is a Thursday at most 3 days away |
| Calendar.WeekNumberCeil | components/Reports.tsx:33-38 | the week number is the ceiling of the Thursday's day-of-year divided by 7 |
| Calendar.SameWeekSameNumber | components/Reports.tsx:33-38 | two dates of the same week share the Thursday and the week number |
| Calendar.JanuaryFourthInWeekOne | components/Reports.tsx:33-38 | 4 January is always in week 1 of its own year, as ISO 8601 requires |
| Calendar.LateDecemberInWeekOne | components/Reports.tsx:33-38 | a 31 December falling on a Monday, Tuesday or Wednesday is in week 1, and its Thursday falls in the next year |
| Text.AmountInput | components/TransactionForm.tsx:260-264 | the displayed amount reads back as the same cents as the digits typed |
| Text.AmountInputParses | components/Settings.tsx:20-24 | the field text is the `toFixed(2)` of the digits read as cents, and parsing it back gives those cents |
| Text.CentsAppendChar | components/TransactionForm.tsx:260-264 | typing a digit multiplies the cents by 10 and adds the digit; any other character changes nothing |
| Text.CentsRoundTrip | components/TransactionForm.tsx:85 | reading the digits of a formatted amount gives back the cents |
| Text.ToFixed2RoundTrip | components/GoalForm.tsx:66-70 | parsing `toFixed(2)` of any cents value, negative included, gives back that value |
| Text.Lower | components/CategoriesManager.tsx:266-270 | lower-casing keeps the length and maps each character |
| Text.Contains | components/Transactions.tsx:224-230 | substring search is true iff the needle occurs at some index |
| Text.Trim | components/GoalAddValueForm.tsx:51 | trimming gives a slice of the input with no space at either end |
| Text.TrimEmptyIffBlank | components/Transactions.tsx:218 | a trimmed query is empty iff the query is all spaces |
| Billing.ClosingIsCivil | components/TransactionForm.tsx:137-146 | the closing of month m is day cd of that month (after year wrap) at 00:00 |
| Billing.AtOrAfterClosing | components/Reports.tsx:94-102 | a date is at or after a closing iff it is in a later month, or in the same month with day ≥ the closing day |
| Billing.StatementMembership | components/Dashboard.tsx:244-252 | a date lies in statement k, i.e. [closing of month k−1, closing of month k), iff its statement index is k |
| Billing.StatementLength | components/TransactionForm.tsx:137-146 | a statement spans exactly as many days as the month before the closing |
| Billing.NextClosingIsNext | hooks/useFinanceData.ts:252-254 | the next closing is strictly later than now, lies in now's statement month, and no closing is earlier than it while still later than now |
| Billing.EffectiveDateIsStatementMonth | components/Reports.tsx:94-102 | the effective date lies in the transaction's statement month and never before the transaction; when it moves, it lands on day 1 at 12:00 |
| Billing.EffectiveDateUnshifted | components/Projection.tsx:88-97 | anything other than a card expense, and any card expense dated before the closing day, keeps its date |
| FinanceData.StepLater | hooks/useFinanceData.ts:196-198 | every recurrence step (daily, weekly, monthly) moves strictly later |
| FinanceData.AddDaysIsMakeDate | hooks/useFinanceData.ts:196-197 | adding n days is `new Date(y, m, d + n)` and moves the day number by n |
| FinanceData.AddMonthIsMakeDate | hooks/useFinanceData.ts:198 | adding a month is `new Date(y, m + 1, d)` and moves by the length of the current month |
| FinanceData.ExpandDates | hooks/useFinanceData.ts:184-201 | the expansion loop yields exactly the recurrence dates of the specification function |
| FinanceData.RecurrenceDatesSpec | hooks/useFinanceData.ts:184-201 | recurrence dates: (1) at most 501, since the cap test follows the push; (2) none iff the start is after the end; (3) the first is the start; (4) an unknown frequency gives one date; (5) each is ≤ the end and one step after the previous; (6) below the cap the next step would pass the end |
| FinanceData.RecurrenceDatesIncreasing | hooks/useFinanceData.ts:187-198 | recurrence dates strictly increase |
| FinanceData.SeriesRowsSpec | hooks/useFinanceData.ts:173-195 | the rows of a series have consecutive ids and the expanded dates, and share recurringId, end date, frequency and every base field |
| FinanceData.NewRowsSingle | hooks/useFinanceData.ts:203 | a non-recurring transaction gives one row with its own date, not recurring and without series fields |
| FinanceData.TotalBalanceIsLedger | hooks/useFinanceData.ts:245-277 | for a valid closing day, the balance is the initial balance plus the ledger effect of rows dated ≤ now; the card exclusion never applies |
| FinanceData.TotalBalanceIgnoresFuture | hooks/useFinanceData.ts:256-275 | adding a row dated after now leaves the balance unchanged |
| FinanceData.UpdateRowsSpec | hooks/useFinanceData.ts:214-243 | the edited row takes the payload and the new date; with applyToFuture, later rows of the same series take the payload but keep their dates; all other rows and all ids are unchanged |
| FinanceData.UpdateRowsRecurrence | hooks/useFinanceData.ts:216-227 | a rewritten row takes the recurring flag of the edit, and its frequency and end date when the edit has them; an undefined frequency or end date leaves the stored one in place |
| FinanceData.DeleteRowsMembership | hooks/useFinanceData.ts:417-433 | a row survives deletion iff it is not the target, or with deleteAllFuture not a same-series row dated on or after the target |
| FinanceData.DeleteRowsPartition | hooks/useFinanceData.ts:421-425 | the surviving rows and the deleted rows together are exactly the old rows, as a multiset |
| FinanceData.ReassignCategorySpec | hooks/useFinanceData.ts:453-461 | after reassignment no row has the old category; only the category field of the matching rows changes |
| FinanceData.ReassignPaymentMethodSpec | hooks/useFinanceData.ts:473-477 | rows paid by the deleted method move to 'Outro'; every other row and field is unchanged |
| FinanceData.DeletingFallbackOrphans | hooks/useFinanceData.ts:455 | deleting the fallback category itself leaves its rows pointing at a category that no longer exists |
| FinanceData.SeededOutroIsFallback | hooks/useFinanceData.ts:103-111 | the seeded 'Outro' category, which has a generated id, is the fallback the lookup picks |
| FinanceData.FallbackFor | hooks/useFinanceData.ts:455 | the corrected fallback is an existing category other than the deleted one |
| FinanceData.FallbackForAgrees | hooks/useFinanceData.ts:455 | when the deleted category is not the fallback, the corrected fallback is the one the source picks |
| FinanceData.DeleteCategorySpec | hooks/useFinanceData.ts:453-461 | deletion removes exactly that category; with a fallback, exactly its rows move to the fallback and no row keeps the deleted id; without one, rows are unchanged |
| FinanceData.FindMethod | hooks/useFinanceData.ts:471-479 | lookup by id returns a method with that id, or none when no method has it |
| FinanceData.DeleteMethodSpec | hooks/useFinanceData.ts:471-479 | deletion removes exactly that method; rows with its name move to 'Outro' and all others are unchanged; an unknown id changes no row |
| FinanceData.CreditGoalSpec | hooks/useFinanceData.ts:352-374 | the goal with the id gains the amount; every other goal is unchanged |
| FinanceData.StoredClosingDay | hooks/useFinanceData.ts:65 | a stored closing day is used unless it is missing or 0, in which case the default 25 is used; the day read is a usable closing day (1 to 28) iff the stored one is missing, 0 or in 1 to 28 |
| FinanceData.FinanceStore.constructor | hooks/useFinanceData.ts:14-18 | empty tables, closing day 25, zero initial balances |
| FinanceData.FinanceStore.LoadSettings | hooks/useFinanceData.ts:62-66 | loaded settings replace the balances (missing ones read as 0) and the closing day; the loaded closing day is usable iff the stored one is missing, 0 or in 1 to 28; other tables are untouched |
| FinanceData.FinanceStore.AddTransaction | hooks/useFinanceData.ts:169-212 | the table grows by exactly the new rows (a series or one row); ids advance by their count; nothing else changes |
| FinanceData.FinanceStore.UpdateTransaction | hooks/useFinanceData.ts:214-243 | the table becomes the updated rows; nothing else changes |
| FinanceData.FinanceStore.ConfirmDeleteTransaction | hooks/useFinanceData.ts:417-433 | with a pending target the table loses exactly the deleted rows; without one nothing changes |
| FinanceData.FinanceStore.DeleteCategory | hooks/useFinanceData.ts:453-461 | rows and categories become the corrected deletion result; nothing else changes |
| FinanceData.FinanceStore.DeletePaymentMethod | hooks/useFinanceData.ts:471-479 | rows and methods become the deletion result; nothing else changes |
| FinanceData.FinanceStore.AddValueToGoal | hooks/useFinanceData.ts:352-374 | one goal movement is appended and the goal is credited; nothing else changes |
| FinanceData.FinanceStore.SetInitialBalances | hooks/useFinanceData.ts:480-486 | both balances are set in one step; nothing else changes |
| FinanceData.FinanceStore.SetCardClosingDay | hooks/useFinanceData.ts:487-492 | the closing day is set; nothing else changes |
| TransactionForm.TargetMonthIndex | components/TransactionForm.tsx:123-135 | the target month is a valid month; a January payment before the closing day targets December of the year before |
| TransactionForm.AnalyzeBill | components/TransactionForm.tsx:120-162 | the analysis exists iff the bill-payment flag is set, and diff = amount − sum |
| TransactionForm.AnalyzeBillCycle | components/TransactionForm.tsx:137-160 | count and sum range over exactly the card expenses of the target cycle |
| TransactionForm.AnalyzeBillWindow | components/TransactionForm.tsx:137-146 | the cycle starts at the closing before the target month and ends one second before the target closing |
| TransactionForm.AnalyzeBillNoDate | components/TransactionForm.tsx:123-135 | without a date the cycle is empty and diff is the amount |
| TransactionForm.ClassesExclusive | components/TransactionForm.tsx:148-160 | match, higher and lower are pairwise exclusive, each iff its comparison holds; a 1-cent difference sets none |
| TransactionForm.AdjustmentCategory | components/TransactionForm.tsx:167-169 | an adjustment category exists iff there are categories, and it is one of them |
| TransactionForm.CreateAdjustmentSpec | components/TransactionForm.tsx:164-183 | an adjustment is made iff the payment is higher than the cycle and a category exists; it is a plain expense of exactly diff, preferring the bank-fees category |
| TransactionForm.AdjustmentCloses | components/TransactionForm.tsx:148-181 | after the adjustment the cycle sum plus the adjustment equals the payment, and the adjustment exceeds 1 cent |
| TransactionForm.BillingCycleMessageSpec | components/TransactionForm.tsx:233-245 | the message exists only for a dated card expense; "current month" means the statement is the date's month, "next month" the following one |
| TransactionForm.HintAgreesWithEffectiveDate | components/TransactionForm.tsx:233-245 | the form says "next month" iff reports move the expense's effective date |
| TransactionForm.HandleSubmitSpec | components/TransactionForm.tsx:266-295 | rejects a non-positive amount, an empty description, or recurring without an end date; otherwise a new entry carries every form field, dated on the form's day at the current time, with payment 'N/A' for investments, and with the frequency and an end date at 23:59:59 of the chosen day iff recurring; an update is exactly that entry with the edited row's id and series id |
| TransactionForm.DefaultCategoryIdSpec | components/TransactionForm.tsx:88-95 | an initial category wins; otherwise an investment picks an investment category and anything else prefers 'food'; the result exists iff categories exist |
| Dashboard.MonthStartIsMakeDate | components/Dashboard.tsx:236 | the month start is day 1 of this month at 00:00 |
| Dashboard.MonthEndIsMakeDate | components/Dashboard.tsx:237 | the month end is day 0 of next month at 23:59:59 |
| Dashboard.MonthWindow | components/Dashboard.tsx:236-242 | a date is inside the month window iff it is in the current month |
| Dashboard.MonthListSpec | components/Dashboard.tsx:249-252 | a month list holds exactly the rows of the current month of its kind |
| Dashboard.PendingListSpec | components/Dashboard.tsx:254-258 | a pending list holds exactly the rows of its kind dated strictly after now |
| Dashboard.CardListsSpec | components/Dashboard.tsx:244-258 | the current card list is the card expenses of this statement; the planning list is those of later statements; the two are disjoint |
| Dashboard.ModalTotalsAgree | components/Dashboard.tsx:146-149 | each card's detail-modal total equals the displayed sum, negated for outflows |
| Dashboard.ModalTotalIncome | components/Dashboard.tsx:146-149 | the modal total of income rows is their sum |
| Dashboard.ModalTotalExpenses | components/Dashboard.tsx:146-149 | the modal total of expense rows is minus their sum |
| Dashboard.ModalTotalInvestments | components/Dashboard.tsx:146-149 | the modal total of investment rows is minus their net (contributions minus withdrawals) |
| Dashboard.CurrentTotalInvestedSpec | components/Dashboard.tsx:271-273 | invested so far = initial investment + contributions − withdrawals dated ≤ now |
| Dashboard.PrevMonthEndIsMakeDate | components/Dashboard.tsx:260-261 | the as-written previous month end is `new Date(y, m, 0)` at 00:00 |
| Dashboard.PrevMonthEndPlace | components/Dashboard.tsx:260-261 | that date is the last day of the previous month |
| Dashboard.PrevTotalsSpec | components/Dashboard.tsx:260-277 | the corrected previous totals count exactly the rows of earlier months |
| Dashboard.PrevMonthEndAsWrittenMissesLastDay | components/Dashboard.tsx:260-267 | a row later than 00:00 on the previous month's last day is before this month but outside the as-written cut-off |
| Dashboard.PrevTotalsAgreeOffLastDay | components/Dashboard.tsx:260-277 | without such rows the as-written and corrected previous totals agree |
| Dashboard.PrevTotalBalanceCounterexample | components/Dashboard.tsx:260-267 | income on 31 Jan 2025 at 10:00 is missed by the as-written previous balance and counted by the corrected one |
| Dashboard.VariationSign | components/Dashboard.tsx:269-279 | the variation is 0 when the previous value is 0; otherwise it is positive iff the value grew and 0 iff unchanged |
| Dashboard.ComputeDashboardLists | components/Dashboard.tsx:236-258 | each of the eight lists holds exactly the rows it names: this month's income, plain expenses and investments, this statement's and later statements' card expenses, and the pending rows of each kind |
| Dashboard.ComputeDashboardFigures | components/Dashboard.tsx:260-297 | each card shows the sum of its list; the invested total is the ledger up to now; each variation is 0 without a previous figure and otherwise positive iff the figure grew since the end of the previous month |
| Reports.Quarter | components/Reports.tsx:115-116 | the quarter is in 1..4 and contains the month |
| Reports.WeekKeyAsWrittenCollides | components/Reports.tsx:110 | 31 Dec 2024 and 4 Jan 2024 get the same as-written key although they are in different weeks |
| Reports.WeekKeyIdentifiesWeek | components/Reports.tsx:110 | the corrected weekly key is equal iff the two dates share a week |
| Reports.GroupKeySpec | components/Reports.tsx:104-122 | two dates share a key iff they share the day, the week, the month, the quarter or the year at the chosen granularity (weekly: the corrected key) |
| Reports.EvolutionRowsSpec | components/Reports.tsx:128-137 | the rows are sorted by effective date and are a permutation of the non-bill rows whose effective date is in range |
| Reports.FoldTotals | components/Reports.tsx:141-150 | folding rows into totals gives income, expense and net-investment sums |
| Reports.EvolutionBuckets | components/Reports.tsx:139-150 | the bucket loop yields exactly the grouping fold by the granularity key |
| Reports.EvolutionBucketsSpec | components/Reports.tsx:139-150 | buckets appear in first-occurrence order and each holds the sums of its own rows |
| Reports.EvolutionColumnTotals | components/Reports.tsx:139-152 | summed over buckets, each column equals the total over all filtered rows |
| Reports.RawRows | components/Reports.tsx:152 | one row per bucket key, in key order, with that bucket's totals |
| Reports.Accumulate | components/Reports.tsx:154-161 | the accumulation loop yields the prefix-sum rows |
| Reports.AccumulatedRowsSpec | components/Reports.tsx:154-161 | each accumulated row is the previous row plus the raw row, and names are kept |
| Reports.LastAccumulatedRow | components/Reports.tsx:154-161 | the last accumulated row equals the column totals of the raw rows |
| Reports.ComputeEvolution | components/Reports.tsx:124-165 | the whole evolution computation yields the specification's rows |
| Reports.BucketRowsTotals | components/Reports.tsx:139-161 | raw rows sum to the filtered totals, and in accumulated mode the last row equals them |
| ReportSummary.NetWorthRowsSpec | components/Reports.tsx:167-194 | net worth runs over all rows, sorted by effective date, as a permutation |
| ReportSummary.NetWorthBuckets | components/Reports.tsx:167-194 | the net-worth loop yields the specification's bucket fold |
| ReportSummary.NetWorthSpec | components/Reports.tsx:167-194 | a bucket exists iff some in-range row falls in it, and it holds the running net worth after its last row |
| ReportSummary.CategoryNameSpec | components/Reports.tsx:213-214 | the label is the category's non-empty name, or 'Outros' |
| ReportSummary.TotalsByLabel | components/Reports.tsx:196-228 | the summing loop yields the grouping fold by label |
| ReportSummary.CategoryTotals | components/Reports.tsx:196-228 | the summing loop by category name yields the grouping fold |
| ReportSummary.CategoryTotalsSpec | components/Reports.tsx:196-228 | names are distinct; each total is the sum of its rows; the totals add up to the filtered sum |
| ReportSummary.HandleSortSpec | components/Reports.tsx:247-252 | clicking sets the key; a new key sorts descending; clicking the same key again flips the direction |
| ReportSummary.SummaryLeIsTotalPreorder | components/Reports.tsx:229-242 | the summary order for each key and direction is a total preorder |
| ReportSummary.CategorySummarySpec | components/Reports.tsx:196-245 | the summary is sorted by that order and is a permutation of the per-category totals |
| Projection.ProjectMonths | components/Projection.tsx:99-147 | the month loop yields the specification's projection rows, none for a non-positive count |
| Projection.Project | components/Projection.tsx:73-164 | the projection of a ledger uses effective months and the future rows of the current month; the invested total starts from `currentTotalInvested` (the dashboard's figure: initial investment plus net investments dated up to now), so the first row's invested total is that plus the investments still to come this month |
| Projection.ProjectionRowsSpec | components/Projection.tsx:99-147 | row i is month k0+i with that month's sums; saldo and invested are the start values plus future rows plus the nets of months 1..i |
| Projection.SumsOfEffect | components/Projection.tsx:108-117 | a month's receitas − despesas − investimentos is the sum of balance effects |
| Projection.MonthSumsAgree | components/Projection.tsx:108-117 | the month sums and the future sums agree with the rows they come from |
| Projection.NetOverEffect | components/Projection.tsx:134-137 | the nets over a range of months are the balance effect of the rows in those months |
| Projection.InvestedOverEffect | components/Projection.tsx:134-137 | the investment over a range of months is the net investment of its rows |
| Projection.PeriodEffects | components/Projection.tsx:134-137 | both of the above for one range |
| Projection.ProjectionSpec | components/Projection.tsx:81-147 | row i is stated over the ledger: its month's balance effect, and saldo/invested from totals, future rows and months 1..i |
| Projection.ProjectionRow | components/Projection.tsx:119-137 | the same per-row statement over month sums |
| Projection.ProjectionColumnTotals | components/Projection.tsx:149-161 | balanceOnPeriod and the investment total are the column sums over the shown months |
| Projection.ProjectionTotalsSpec | components/Projection.tsx:149-161 | those totals are the effects of the ledger rows in the shown months |
| Projection.ProjectionFinalSpec | components/Projection.tsx:159-160 | the final saldo and invested are the last row's, falling back to the start value when there are no rows or the value is 0 |
| TransactionsView.WindowMonths | components/Transactions.tsx:190-214 | a date is in the window that runs from this month for `extra` more months iff its month index is in that range |
| TransactionsView.PeriodFilterSpec | components/Transactions.tsx:178-215 | 'all' keeps everything; 'custom' keeps the days in [start, end]; the others keep rows from this month to `extra` months ahead |
| TransactionsView.PeriodsNested | components/Transactions.tsx:190-214 | none ⊆ nextMonth ⊆ sixMonths ⊆ all, as order-preserving subsequences |
| TransactionsView.TimeLabel | components/Transactions.tsx:224-230 | the time label is HH:MM with the row's hour and minute |
| TransactionsView.SearchSpec | components/Transactions.tsx:218-232 | search keeps an order-preserving subsequence; a blank query keeps everything; otherwise it keeps exactly the matching rows |
| TransactionsView.GroupByDay | components/Transactions.tsx:237-246 | the grouping loop yields the fold of the newest-first sorted rows by day key |
| TransactionsView.PushByKey | components/Transactions.tsx:237-246 | the push loop yields the grouping fold for any key |
| TransactionsView.PushGroups | components/Transactions.tsx:237-246 | each group is the rows with its key, in sorted order |
| TransactionsView.PushGroupsMembership | components/Transactions.tsx:237-246 | a row is in a group iff the group's key is the row's key |
| TransactionsView.GroupedTransactionsSpec | components/Transactions.tsx:237-246 | days appear newest first; each group is newest first and a permutation of that day's rows |
| TransactionsView.GroupedTransactionsCover | components/Transactions.tsx:237-246 | every filtered row is in the group of its own day |
| Budgets.SpentByCategory | components/Budgets.tsx:52-59 | the loop yields the specification's spent map |
| Budgets.SpentFoldDomain | components/Budgets.tsx:52-59 | a category has an entry iff some expense uses it |
| Budgets.SpentFoldSum | components/Budgets.tsx:52-59 | spent for a category, 0 when absent, is the sum of its expenses |
| Budgets.WidthOf | components/Budgets.tsx:39 | the bar width is capped at 100% |
| Budgets.ColourForPositiveLimit | components/Budgets.tsx:18-19 | red iff spent > limit; yellow iff 80% < spent ≤ 100%; the width is the share capped at 100 |
| Budgets.ColourForZeroLimit | components/Budgets.tsx:18-19 | with a zero limit any spending is red (the share is +∞) and none is green |
| Budgets.BudgetCards | components/Budgets.tsx:72-78 | one card slot per budget |
| Budgets.BudgetCardsSpec | components/Budgets.tsx:15-19 | a card is absent iff its category is unknown; otherwise it shows that category, the summed spending and the limit |
| Goals.ProgressSpec | components/Goals.tsx:19-20 | progress never exceeds 100; it is 100 for a non-positive target; otherwise it is 100 iff completed, else current/target·100 |
| Goals.TimeProgressSpec | components/Goals.tsx:22-28 | time progress never exceeds 100 and is 100 iff today ≥ deadline; with no total time it is 0 or 100 |
| Goals.TimeProgressRunning | components/Goals.tsx:26-28 | for a running goal, time progress is in [0, 100] and reaches 100 exactly at the deadline |
| Goals.CeilDiv | components/Goals.tsx:30 | ceiling division brackets its argument |
| Goals.DayDiffIsDays | components/Goals.tsx:22-30 | dayDiff is the number of whole days from today to the deadline |
| Goals.FilteredGoalsSpec | components/Goals.tsx:115-118 | sorted by deadline; a permutation of the shown goals; all goals when showing completed, else only incomplete ones |
| Goals.SortedHistorySpec | components/Goals.tsx:120-122 | history is a newest-first permutation of the movements |
| Goals.HistoryRows | components/Goals.tsx:203-206 | one history row per movement |
| Goals.HistoryRowsSpec | components/Goals.tsx:203-206 | rows are newest first; a row is an update iff its description contains 'Valor alvo', and a withdrawal iff not an update and the amount is negative; the goal is found iff it exists |
| GoalAddValue.AmountChange | components/GoalAddValueForm.tsx:25-30 | the amount field reads as the typed digits in cents; the other fields are kept |
| GoalAddValue.ToggleSign | components/GoalAddValueForm.tsx:32-34 | toggling flips the sign and keeps the rest |
| GoalAddValue.InitialFormDisplayed | components/GoalAddValueForm.tsx:21-23 | the form starts showing 0 cents in display form |
| GoalAddValue.AmountChangeDisplayed | components/GoalAddValueForm.tsx:25-30 | after input the field is in display form |
| GoalAddValue.SubmitSpec | components/GoalAddValueForm.tsx:36-61 | refused iff the amount is 0 or a withdrawal exceeds the balance; otherwise it submits ±cents with the trimmed description or the deposit or withdrawal default |
| GoalAddValue.SubmitKeepsBalance | components/GoalAddValueForm.tsx:46-49 | an accepted movement credited to the goal never turns a non-negative balance negative |
| GoalAddValue.DefaultDescriptionKind | components/GoalAddValueForm.tsx:51 | a submitted movement shows in history as a withdrawal or a deposit according to its sign, never as a target update |
| GoalAddValue.WithdrawalDefaultNotUpdate | components/GoalAddValueForm.tsx:51 | the withdrawal default text does not contain 'Valor alvo' |
| GoalAddValue.DepositDefaultNotUpdate | components/GoalAddValueForm.tsx:51 | the deposit default text does not contain 'Valor alvo' |
| GoalForm.InitialStateNew | components/GoalForm.tsx:66-70 | a new form has an empty name, target 0.00, no deadline and the default icon |
| GoalForm.InitialStateEdit | components/GoalForm.tsx:66-70 | an edit form shows the goal's name, target, deadline day and icons, with a default icon when none is stored |
| GoalForm.AmountChange | components/GoalForm.tsx:74-78 | the target field reads as the typed digits in cents; the other fields are kept |
| GoalForm.SubmitRefusal | components/GoalForm.tsx:91-97 | refused iff the name is empty, the target ≤ 0 or the deadline is missing; an edit iff there is initial data |
| GoalForm.SubmitEdit | components/GoalForm.tsx:99-106 | an edit keeps every stored field except name, target, deadline (chosen day at 12:00) and icons |
| GoalForm.SubmitDraft | components/GoalForm.tsx:99-106 | a new goal carries the entered name, target, deadline day at 12:00 and icons |
| GoalForm.ReopenRoundTrip | components/GoalForm.tsx:66-106 | reopening a goal and saving unchanged only moves its deadline to 12:00 and defaults its icon |
| GoalForm.DeleteRequest | components/GoalForm.tsx:111-123 | delete asks for the goal's id, and does nothing without initial data |
| AIGoal.RoundCents | components/AIGoalModal.tsx:39-44 | the AI total is rounded to the nearest cent |
| AIGoal.AnswerFor | components/AIGoalModal.tsx:59-62 | a question's answer is the given one, or 'Não informado' when empty |
| AIGoal.BuildPrompt | components/AIGoalModal.tsx:55-68 | the prompt loop yields the specification prompt |
| AIGoal.PromptSpec | components/AIGoalModal.tsx:59-62 | the prompt starts with the description and header, and question i's line follows the lines of the earlier questions |
| AIGoal.SaveGoalSpec | components/AIGoalModal.tsx:70-100 | rejects an empty name or a target ≤ 0; fails without a date; otherwise saves an AI goal with current 0, deadline at 12:00, and the AI breakdown and sources |
| AIGoal.SeededSave | components/AIGoalModal.tsx:39-44 | saving the seeded amount saves the rounded AI total, and is rejected iff that total ≤ 0 or the name is empty |
| AIGoal.FailedEstimateRejected | services/geminiService.ts:190-192 | a failed estimate (total 0) cannot be saved unedited |
| AIGoal.AIGoalWizard.constructor | components/AIGoalModal.tsx:18-36 | the wizard starts at step 1 with empty fields and amount "0" |
| AIGoal.AIGoalWizard.EditName | components/AIGoalModal.tsx:133 | only the name changes |
| AIGoal.AIGoalWizard.EditDate | components/AIGoalModal.tsx:137 | only the date changes |
| AIGoal.AIGoalWizard.EditDescription | components/AIGoalModal.tsx:144 | only the description changes |
| AIGoal.AIGoalWizard.SubmitInitial | components/AIGoalModal.tsx:46-53 | with name, date and description filled it moves to step 2 with the filtered questions; otherwise nothing changes |
| AIGoal.AIGoalWizard.EditAnswer | components/AIGoalModal.tsx:172 | only that question's answer changes |
| AIGoal.AIGoalWizard.SubmitClarification | components/AIGoalModal.tsx:55-68 | sends the specification prompt and moves to step 3 with the estimate |
| AIGoal.AIGoalWizard.Proceed | components/AIGoalModal.tsx:39-44 | step 4 seeds the final name and the amount as the AI total to two decimals, which reads back as the rounded total |
| AIGoal.AIGoalWizard.Back | components/AIGoalModal.tsx:178 | going back lowers the step by one and keeps everything else |
| AIGoal.AIGoalWizard.EditFinalName | components/AIGoalModal.tsx:224 | only the final name changes |
| AIGoal.AIGoalWizard.AmountChange | components/AIGoalModal.tsx:120-124 | the amount field reads as the typed digits in cents |
| AIGoal.AIGoalWizard.ChooseIcon | components/AIGoalModal.tsx:286 | only the icon changes |
| AIGoal.AIGoalWizard.UploadIcon | components/AIGoalModal.tsx:102-111 | only the custom icon is set |
| AIGoal.AIGoalWizard.UseEmojis | components/AIGoalModal.tsx:274 | only the custom icon is cleared |
| AIGoal.AIGoalWizard.Save | components/AIGoalModal.tsx:70-100 | rejects exactly an empty name or a target ≤ 0; a saved goal's target is the field's amount and formats back to it |
| Settings.ClosingDayInput | components/Settings.tsx:313 | the input is never 0: unparsable or 0 becomes 1, anything else is kept |
| Settings.ClosingDayRoundTrip | components/Settings.tsx:313 | typing a day's digits gives that day, or 1 for 0 |
| Settings.NoDigitsReadsOne | components/Settings.tsx:313 | text without leading digits reads as 1 |
| Settings.UnsignedReads | components/Settings.tsx:313 | an unsigned numeral parses to its value |
| Settings.NegativeReads | components/Settings.tsx:313 | a minus-prefixed numeral parses to the negative value |
| Settings.CreditCardModal.constructor | components/Settings.tsx:288 | the modal starts with the store's closing day |
| Settings.CreditCardModal.Input | components/Settings.tsx:313 | the field holds the coerced input |
| Settings.CreditCardModal.Save | components/Settings.tsx:286-299 | saves iff 1 ≤ day ≤ 28, otherwise shows the range message and keeps the old day; a valid day stays valid; nothing else changes |
| Settings.InitialBalanceModal.constructor | components/Settings.tsx:45-47 | the fields show the stored balances to two decimals and read back as them |
| Settings.InitialBalanceModal.EditBalance | components/Settings.tsx:71 | the balance field reads as the typed digits in cents; the other field is kept |
| Settings.InitialBalanceModal.EditInvestment | components/Settings.tsx:84 | the investment field reads as the typed digits in cents; the other field is kept |
| Settings.InitialBalanceModal.Save | components/Settings.tsx:50-53 | both parsed values are stored together; nothing else changes |
| Categories.FilteredCategories | components/CategoriesManager.tsx:266-270 | a blank query keeps all categories; otherwise it keeps exactly those whose lower-cased name contains the trimmed lower-cased query, in order |
| Categories.CategorizedList | components/CategoriesManager.tsx:272-276 | imported (custom icon) and system lists are disjoint, order-preserving and together the filtered list |
| Categories.ExistingCustomIcons | components/CategoriesManager.tsx:88-94 | the icons are duplicate-free, exactly the categories' custom icons, in first-occurrence order |
| Categories.AttemptDeleteSpec | components/CategoriesManager.tsx:107-117 | confirmation is asked iff the category exists, has an id, a handler exists, and its name is not 'investimentos' |
| Categories.DeleteButtonSpec | components/CategoriesManager.tsx:234 | a protected category shows no delete button; a shown button asks to confirm that category |
| Categories.DeleteFromForm | components/CategoriesManager.tsx:344-350 | a confirmed request performs the store's category deletion; anything else leaves the store unchanged |
| PaymentMethods.FilteredMethods | components/PaymentMethodsManager.tsx:230-234 | a blank query keeps all methods; otherwise it keeps exactly those whose lower-cased name contains the query, in order |
| PaymentMethods.CategorizedList | components/PaymentMethodsManager.tsx:236-240 | imported and system lists are disjoint, order-preserving and together the filtered list |
| PaymentMethods.ExistingCustomIcons | components/PaymentMethodsManager.tsx:64-70 | the icons are duplicate-free, exactly the methods' custom icons, in first-occurrence order |
| PaymentMethods.DeleteButton | components/PaymentMethodsManager.tsx:198-201 | the delete request exists iff the method exists, has an id, a handler exists and it is not protected (pix, cash, other) |
| PaymentMethods.DeleteFromForm | components/PaymentMethodsManager.tsx:308-317 | a confirmed request performs the store's method deletion; anything else leaves the store unchanged |
| ManagerLists.SearchSpec | components/CategoriesManager.tsx:266-270 | the generic search keeps everything for a blank query, else exactly the matches, in order |
| ManagerLists.PartitionSpec | components/PaymentMethodsManager.tsx:236-240 | the imported/system split is a disjoint, order-preserving partition by custom icon |
| ManagerLists.CollectIcons | components/CategoriesManager.tsx:88-94 | the icon-collecting loop yields the deduplicated present icons |
| ManagerLists.PresentIconsMembership | components/PaymentMethodsManager.tsx:64-70 | an icon is present iff some item carries it |
| ManagerLists.IconsSpec | components/CategoriesManager.tsx:88-94 | the collected icons are duplicate-free, complete and in first-occurrence order |
| Gemini.MatchAt | services/geminiService.ts:181-184 | a match is a non-empty run of digits, dots and commas |
| Gemini.MatchAfterLabel | services/geminiService.ts:181-184 | after 'Valor Total Estimado: R$' the match is exactly the amount run that follows |
| Gemini.TotalAfterLabel | services/geminiService.ts:181-183 | a labelled 'a,b' amount reads as a.b |
| Gemini.TotalAmountSpec | services/geminiService.ts:180-187 | the total is never negative, and 0 when nothing matches |
| Gemini.DotsIgnored | services/geminiService.ts:183 | thousands dots are removed before parsing |
| Gemini.CommaDecimal | services/geminiService.ts:183 | the first comma becomes the decimal point |
| Gemini.PointDecimal | services/geminiService.ts:183-187 | a decimal numeral parses to its value |
| Gemini.EstimateFrom | services/geminiService.ts:161-194 | the estimate's total is never negative, with the error fallback at 0 |
| Gemini.Take4 | services/geminiService.ts:208 | at most the first four items, all of them when fewer |
| Gemini.ClarifyingQuestionsSpec | services/geminiService.ts:196-212 | at most 4 questions, each a reply line whose trimmed length is > 3, in order, and all such lines when fewer than 4; on error, the fallback questions |
| Gemini.GeminiHistory | services/geminiService.ts:45-48 | the last min(n, 10) messages, in order, role 'user' iff sent by the user, text kept |
| Gemini.CleanMimeSpec | services/geminiService.ts:107-108 | the MIME type loses everything from ';', and 'audio/x-m4a' becomes 'audio/mp4' |
| Login.ErrorText | components/Login.tsx:70 | a missing or empty message becomes the default error text |
| Login.CoveredAlternatives | components/Login.tsx:72-81 | the two credential messages fall under the 'credentials' test, and 'User already registered' under 'already registered' |
| Login.TranslateSpec | components/Login.tsx:72-81 | the translation tests short password, then credentials (case-insensitive), then already registered, then unconfirmed email, else the message is kept |
| Login.ShortPasswordNoCall | components/Login.tsx:22-25 | a short password gives the error regardless of any auth answer, so no call matters |
| Login.HandleAuthSpec | components/Login.tsx:18-84 | an error iff the password is short or auth fails; a registered user gets the entered email, a default name when empty and no photo; a logged-in user gets the returned id and email |

## Left out

- Supabase I/O (`fetchAllData`, inserts, updates, deletes, auth sessions) is not modelled: tables are in-memory sequences updated in place, and each remote call is assumed to succeed. The `addGoal` retry without the AI columns (hooks/useFinanceData.ts:302-307) and the goal create, update and delete calls are remote-only and are left out.
- The LLM calls themselves (estimation, questions, chat, transcription, receipt extraction), the chatbot, audio and camera capture, and all rendering are left out. Their replies become function parameters (`ask`, `estimate`) or `Option` inputs.
- `crypto.randomUUID` and database ids: a series id is a parameter and row ids come from the store's `nextId` counter.
- The clock is a parameter (`now`); timers, `setTimeout` and `localStorage` are left out.
- Floating point: money is exact integer cents. The source's 0.01 tolerance in the bill analysis becomes a 1-cent band, and percentages are exact reals.
- Time zones, daylight saving and `toISOString` (UTC) are not modelled: all dates are local civil dates.
- Locale formatting (`toLocaleString`, `Intl`) and UI labels are left out. The time label is modelled as HH:MM, and labels are abstract keys.
- `normalizeText` and `localeCompare` are function parameters. `toLowerCase` is modelled on ASCII and Latin-1 letters only.
- `Object.entries` places integer-like keys first; the model keeps insertion order for all keys.
- The budgets list in the hook is always empty (hooks/useFinanceData.ts:377); the budget cards are modelled for any list.
- FinanceData.TotalBalanceIsLedger: the `tDate >= nextClosingDate` card exclusion in `totalBalance` is never reached for a closing day in 1..28, so the lemma states the balance without it.
- Categories.IsProtected and PaymentMethods.IsProtected are predicates without contracts; their effect is stated by the delete-button members.
- FinanceData.FinanceStore, Settings.CreditCardModal, Settings.InitialBalanceModal and AIGoal.AIGoalWizard: their methods state their new state with `old(...)`. What they compute is stated by the specification functions they call.
- GroupKeySpec (Reports.GroupKeySpec, Reports.GroupKeyOf): the weekly case is stated for the corrected key, which pairs the week number with its Thursday's year. With the source's key (Reports.tsx:110) the "iff" fails in one direction: a 31 December on a Monday, Tuesday or Wednesday shares its label with week 1 of its own year (see Findings). The daily, weekly and monthly keys also keep the full year where the rendered labels show two digits, so dates a multiple of 100 years apart that share a source label get different keys.
- ComputeEvolution (Reports.ComputeEvolution, Reports.EvolutionBuckets, ReportSummary.NetWorthBuckets): a weekly report is bucketed by the corrected key. It differs from the source only on a range holding both week 1 of a year and a 31 December of that year that falls on a Monday, Tuesday or Wednesday (or the days before it in that week): the source adds those days into the "Sem 1/yy" bucket of January, the model gives them their own bucket.
- ComputeDashboard (Dashboard.ComputeDashboard, Dashboard.ComputeDashboardFigures): the two variations compare with the corrected previous-month figures, which count every row before this month. The source stops at 00:00 of the previous month's last day, so the two differ exactly when some row dated later on that day changes the previous balance or invested total (see Findings).
- DeleteCategory (FinanceData.FinanceStore.DeleteCategory, Categories.DeleteFromForm): the rows of the deleted category move to the corrected fallback, which skips the deleted category. The source differs when its own lookup (a category named 'outro', else the id 'others') finds the deleted category itself while another candidate exists: the source then leaves the rows on the deleted id, the model moves them to that other candidate (see Findings).
- ShortPasswordNoCall (Login.ShortPasswordNoCall, Login.HandleAuthSpec, Gemini.ClarifyingQuestionsSpec): JavaScript's `length` counts UTF-16 code units, while a Dafny string counts Unicode characters. A password or a reply line with characters outside the Basic Multilingual Plane (an emoji, say) is longer in the source than in the model, so "😀😀😀" passes the source's 6-character test and fails the model's.

## Findings

| source | as written | input that shows it | evidently intended | confidence | as-written member | corrected member |
|---|---|---|---|---|---|---|
| components/Dashboard.tsx:260-267 | the previous-month totals count rows up to `new Date(y, m, 0)`, i.e. 00:00 of the previous month's last day | now = 2025-02-10, income dated 2025-01-31 10:00: excluded from prevTotalBalance | count every row before the current month's first day | not executed | Dashboard.PrevTotalBalanceAsWritten (Dashboard.PrevTotalBalanceCounterexample, Dashboard.PrevMonthEndAsWrittenMissesLastDay) | Dashboard.PrevTotalsSpec (Dashboard.PrevTotalsAgreeOffLastDay) |
| components/Reports.tsx:110 | the weekly key pairs the ISO week number with the calendar year | 2024-12-31 and 2024-01-04 both get "Sem 1/24" | pair the week with its Thursday's year | not executed | Reports.WeekKeyAsWrittenCollides | Reports.WeekKeyIdentifiesWeek |
| hooks/useFinanceData.ts:455 | the fallback category can be the category being deleted | deleting the seeded 'Outro' category (generated id, name 'Outro') | reassign to a fallback other than the deleted category | not executed | FinanceData.DeletingFallbackOrphans (FinanceData.SeededOutroIsFallback) | FinanceData.DeleteCategorySpec (FinanceData.FallbackForAgrees) |
