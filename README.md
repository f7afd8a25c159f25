# Dashboard aggregations, modelled in Dafny

This project models the client-side aggregation layer of a personal-finance dashboard. The
dashboard reads bank operations (a signed amount, a realisation date, a category translation
and an owning account), account balances and daily balance histories from a remote store. Its
components then fold those rows into the figures the cards, tables and charts display:

- the income/expense split (`Split`): an amount above 0 is income, and everything else goes to
  the expense side as its absolute value, zero and `null` included;
- the analytics card (`FinancialAnalytics`): totals, largest income and expense, count,
  averages, ratio and net balance;
- the overview cards (`OverviewSummary`): the total balance, this month's and last month's
  folds, and the percentage change guarded by `|| 1`;
- the analytics cards (`AnalyticsSummary`): the card values, the share of the income flow, and
  the card selection that opens the transaction dialog;
- the per-category grouping (`CategoryTotals`): a fallback label, then a ranking by total and
  a top-n cut. It is shared by the expense pie chart (5 slices) and the two transaction bar
  charts (8 and 6 bars) in `CategoryCharts`;
- the two-month category radar (`CategoryRadar`);
- the per-month buckets (`MonthBuckets`). They feed the income/expenses chart
  (`IncomeExpenses`, keyed by "yyyy-MM") and the spending trends charts (`SpendingTrends`);
- the balance pivot by day and account, and the palette of the account comparison chart
  (`AccountBalanceComparison`);
- the income/expense type filter and the transaction tables (`TypeFilter`,
  `TransactionLists`);
- the filter store (`Filters`) and the filtered-operations query it drives
  (`FilteredOperations`).

Money is integer cents (`int`). Ratios and percentages are `real`. A calendar day is
`(year, month, day)` with months 1 to 12. A JavaScript object used as a dictionary is an
insertion-ordered list of `(key, value)` pairs (`Dict`). `Dict.Upsert` is the one
`if (!acc[k]) acc[k] = init; acc[k] = step(acc[k])` write every fold performs. Each fold that
mutates its accumulator is a method with a loop, proved equal to a left-fold specification
function. The properties are proved about those functions. A `sort` is a stable insertion
sort by a numeric key (`Ranking.SortDesc`). The query results are inputs, and `None` stands
for data not yet fetched.

A `null` amount is counted. `transactions += 1` and `operations.length` include it, `null > 0`
is false and `Math.abs(null)` is 0. So it reads as 0 on the expense side, adds nothing there, and
is in every average's denominator.

## Model

| member | source | states |
|---|---|---|
| Split.FoldFlow | components/overview/analytics-summary.tsx:50-60 | the income/expense reduce yields exactly (sum of the amounts above 0, sum of the absolute values of all the others) |
| Split.NetIsSignedSum | components/financial-analytics.tsx:158-162 | total income minus total expenses is the signed sum of all amounts, null read as 0 |
| Split.SplitAppend | components/financial-analytics.tsx:36-50 | both sides of the split are additive over concatenation of the operation lists |
| FinancialAnalytics.ComputeMetrics | components/financial-analytics.tsx:36-50 | the metrics fold gives the split totals, the largest income and expense and a count equal to the number of operations, nulls and zeros included; no data or an empty list gives all zeros |
| FinancialAnalytics.MaxIncomeBounds | components/financial-analytics.tsx:41 | the largest income is at least every positive amount, is one of them or 0 when there is none, and is at most the total income |
| FinancialAnalytics.MaxExpenseBounds | components/financial-analytics.tsx:43-44 | the largest expense is at least every non-income absolute amount, is one of them or 0, and is at most the total expenses |
| FinancialAnalytics.NetBalanceIsSignedSum | components/financial-analytics.tsx:162 | the net balance shown is the signed sum of the operations' amounts |
| FinancialAnalytics.TransactionsPerDay | components/financial-analytics.tsx:54 | transactions per day is exactly 1 for any non-empty list and 0 for none |
| FinancialAnalytics.AverageSizeIsDailyExpenses | components/financial-analytics.tsx:182 | because every operation is counted, the average transaction size equals the daily expenses figure of line 53 |
| FinancialAnalytics.IncomeToExpenseRatio | components/financial-analytics.tsx:176 | the ratio is never negative for non-negative totals |
| FinancialAnalytics.RatioGuard | components/financial-analytics.tsx:176 | with expenses, ratio times expenses is income times 100; without, the ratio is income times 100 |
| Records.Quotient | components/financial-analytics.tsx:53 | the guarded quotient `n / (d or 1)` times `(d or 1)` gives back `n`, and it is non-negative for non-negative operands |
| Records.QuotientOfItself | components/financial-analytics.tsx:54 | a count divided by itself (guarded) is 1, or 0 for a zero count |
| OverviewSummary.TotalBalance | components/overview/analytics-summary.tsx:24-27 | no accounts give 0; otherwise the balance sum over the accounts, first to last (the same fold as components/analytics-summary.tsx:38-41) |
| OverviewSummary.ZeroFilled | components/overview/analytics-summary.tsx:25 | every missing balance is replaced by "0" and every present one kept, position by position |
| OverviewSummary.MissingBalanceIsZero | components/overview/analytics-summary.tsx:25 | a null balance contributes exactly what a balance of "0" does |
| OverviewSummary.BalanceSumAppend | components/overview/analytics-summary.tsx:24-27 | the balance sum is additive over concatenation |
| OverviewSummary.PeriodFold | components/overview/analytics-summary.tsx:50-72 | no data gives no metrics; data gives the split of that period, both sides non-negative |
| OverviewSummary.OrZero | components/overview/analytics-summary.tsx:80-85 | missing metrics read as income 0 and expenses 0, present ones unchanged |
| OverviewSummary.PctChange | components/overview/analytics-summary.tsx:74-75 | with a previous value of 0 the change is the current value times 100; otherwise change times previous is the difference times 100 |
| OverviewSummary.ChangeSign | components/overview/analytics-summary.tsx:74-75 | for a non-negative previous value the change is 0, positive or negative exactly when the value stayed, grew or fell |
| OverviewSummary.MonthlyAnalytics | components/overview/analytics-summary.tsx:24-90 | the query result holds the total balance, both period folds with missing data as zeros, and the expense change between them |
| OverviewSummary.CardsOf | components/overview/analytics-summary.tsx:94-119 | no analytics give zero cards; otherwise the cards show the total balance and this month's income and expenses, the expense change is the query's, and the income change follows the same rule on the income side |
| OverviewSummary.CardChanges | components/overview/analytics-summary.tsx:105-106 | each card's change is positive exactly when its side of the split grew from last month's rows to this month's |
| AnalyticsSummary.CardsOf | components/analytics-summary.tsx:58-83 | three cards (balance with no type, income, expenses) whose values default to 0 when the data is absent and otherwise are the account-balance query result and the metrics' income and expenses |
| AnalyticsSummary.ShareOfFlow | components/analytics-summary.tsx:122 | the share is never negative, and times the guarded income it gives the absolute value times 100 |
| AnalyticsSummary.IncomeCardShare | components/analytics-summary.tsx:122 | with income, the income card shows exactly 100 percent |
| AnalyticsSummary.ExpenseCardShare | components/analytics-summary.tsx:122 | the expense card shows expenses over income in percent, or expenses times 100 when there is no income |
| AnalyticsSummary.CardSelection.constructor | components/analytics-summary.tsx:26 | no card is selected at first |
| AnalyticsSummary.CardSelection.Click | components/analytics-summary.tsx:98 | clicking the balance card leaves the selection; clicking a flow card selects its type |
| AnalyticsSummary.CardSelection.Close | components/analytics-summary.tsx:138 | closing the dialog clears the selection |
| Dict.Upsert | components/charts/expense-by-category.tsx:44 | a write sets its key to the step applied to the old value (or to the initial value) and leaves every other key as it was |
| Dict.UpsertKeys | components/charts/expense-by-category.tsx:48 | a write keeps the keys in their order and appends the key only when it is new, which is the order `Object.entries` gives back |
| Dict.UpsertDistinct | components/charts/expense-by-category.tsx:48-49 | a write never creates a duplicate key |
| Dict.UpsertSum | components/charts/expense-by-category.tsx:42-46 | the total of any measure over the entries changes by exactly what the write adds |
| Ranking.Insert | components/charts/expense-by-category.tsx:50 | one insertion step of the stable sort keeps the list non-increasing and adds exactly the new element |
| Ranking.SortDesc | components/charts/expense-by-category.tsx:50 | the descending sort is non-increasing and a permutation of its input |
| Ranking.TopCut | components/charts/expense-by-category.tsx:50-51 | sort and slice keep min(n, length) elements of the input, largest first, and every dropped element is no larger than every kept one |
| Ranking.SortKeepsDistinct | components/charts/expense-by-category.tsx:50 | sorting never merges two groups |
| Ranking.TopKeepsDistinct | components/charts/expense-by-category.tsx:50-51 | the cut keeps the group names distinct |
| Ranking.SortSum | components/charts/expense-by-category.tsx:50 | sorting keeps the total of any measure |
| Ranking.TopSumBounded | components/transaction-chart.tsx:79 | with non-negative values, what the cut keeps adds up to no more than all entries |
| CategoryTotals.AddRow | components/charts/expense-by-category.tsx:43-44 | one row adds the absolute value of its amount (null read as 0) to the entry of its label, created at 0 when new |
| CategoryTotals.AddRowOther | components/charts/expense-by-category.tsx:44 | the entries of other labels are unchanged by a row |
| CategoryTotals.TotalsDistinct | components/charts/expense-by-category.tsx:48-49 | the grouping has one entry per label |
| CategoryTotals.TotalsLookup | components/charts/expense-by-category.tsx:42-46 | a label has an entry exactly when some row carries it, and the entry is the sum of the absolute amounts of exactly those rows |
| CategoryTotals.TotalsEntries | components/charts/expense-by-category.tsx:48-49 | every entry is a label some row carries, holding that label's sum |
| CategoryTotals.TotalsSum | components/charts/expense-by-category.tsx:42-46 | before the cut, the groups add up to the sum of the absolute amounts of all rows |
| CategoryTotals.GroupTotals | components/charts/expense-by-category.tsx:42-46 | the in-place reduce computes the grouping |
| CategoryTotals.RankedTotals | components/charts/expense-by-category.tsx:42-51 | exactly the top-n cut of the totals: the n largest labels (all of them when there are fewer), distinct, non-increasing, each with its rows' absolute sum; no dropped label is larger than a kept one; the kept sum is at most the total |
| CategoryCharts.ExpenseByCategory | components/charts/expense-by-category.tsx:42-51 | the pie chart: the 5 largest categories (all of them when there are fewer), distinct, with fallback "Other", largest first, each its rows' absolute sum, dropped ones no larger than kept ones |
| CategoryCharts.BarChart | components/transaction-chart.tsx:55-79 | a bar chart with fallback "Uncategorized": the n largest categories as bars (all of them when there are fewer), distinct, largest first, each its rows' absolute sum; the total sums the bars shown and is between 0 and the rows' absolute sum |
| CategoryCharts.TransactionChart | components/transaction-chart.tsx:55-79 | the page chart keeps the 8 largest categories (all of them when there are fewer), distinct, largest first, each a category some row carries with its rows' absolute sum, none dropped larger than one kept, and a total of the bars shown between 0 and the rows' absolute sum |
| CategoryCharts.DialogTransactionChart | components/dialogs/transaction-chart.tsx:64-111 | the dialog chart keeps the 6 largest categories (all of them when there are fewer), distinct, largest first, each a category some row carries with its rows' absolute sum, none dropped larger than one kept, a total of the bars shown between 0 and the rows' absolute sum, and a non-negative average per transaction |
| CategoryCharts.Average | components/dialogs/transaction-chart.tsx:111 | the average times the guarded count of all transactions of the view, before the cut, gives the total |
| CategoryCharts.Percentage | components/transaction-chart.tsx:116 | the tooltip percentage exists exactly when the total is not 0, and times the total gives the amount times 100 |
| CategoryCharts.PercentageBounds | components/dialogs/transaction-chart.tsx:152 | a share of a positive total lies between 0 and 100 |
| CategoryCharts.PercentTotal | components/dialogs/transaction-chart.tsx:152 | the percentages of entries summing to a positive total add up to 100 |
| CategoryCharts.PercentagesOfBars | components/transaction-chart.tsx:116 | over the bars shown the tooltip percentages add up to 100 and each lies between 0 and 100 |
| TypeFilter.ByType | components/transaction-list.tsx:49-51 | the income view keeps exactly the amounts above 0 and the expense view exactly those below 0, so zero is in neither |
| TypeFilter.ByTypeAppend | components/transaction-list.tsx:49-51 | the view is the in-order filter: it distributes over concatenation of the rows |
| TypeFilter.ByTypeSnoc | components/transaction-list.tsx:49-51 | one more row is appended to the view exactly when the view keeps it |
| TypeFilter.ByTypeSingle | components/transaction-list.tsx:49-51 | a single row is its own view exactly when the view keeps it, and the view is empty otherwise |
| TypeFilter.ByTypeKeepsOrder | components/transaction-list.tsx:45-51 | filtering keeps the query's newest-first order |
| TypeFilter.IncomeViewSum | components/dialog-transaction-list.tsx:63 | the income view's absolute total is the income side of the split |
| TypeFilter.ExpenseViewSum | components/dialog-transaction-list.tsx:63 | the expense view's absolute total is the expense side of the split |
| TransactionLists.ShowRow | components/transaction-list.tsx:88-104 | a row shows its day or "No date", its description or empty text, its category or "Uncategorized" when missing or empty, and the absolute value of its amount (null read as 0), which is 0 exactly for a zero or null amount |
| TransactionLists.Rows | components/transaction-list.tsx:85-104 | one displayed row per operation, in query order, as many as the header counts |
| TransactionLists.EmptyRowExactly | components/transaction-list.tsx:108-114 | "No transactions found" shows exactly when there are no rows, which is exactly when the count is 0 |
| TransactionLists.TotalAmount | components/dialog-transaction-list.tsx:63 | the dialog total is non-negative and 0 when the list is empty or absent |
| TransactionLists.ViewTotals | components/dialog-transaction-list.tsx:49-63 | the total of the income view is the month's income and that of the expense view the month's expenses |
| TransactionLists.ViewNewestFirst | components/dialog-transaction-list.tsx:45-51 | the displayed rows of a view run newest first by their date cells, "No date" rows above the others |
| CategoryRadar.SpendingOf | components/charts/category-spending-radar.tsx:55-81 | the spending dictionary has one entry per category |
| CategoryRadar.SpendingLookup | components/charts/category-spending-radar.tsx:55-81 | a category has an entry exactly when one of its rows is counted, and holds the absolute sums of its current-month and previous-month rows |
| CategoryRadar.SpendingEntries | components/charts/category-spending-radar.tsx:83 | every value is a counted category with its two sums, and no category appears twice |
| CategoryRadar.Spending | components/charts/category-spending-radar.tsx:55-81 | the in-place reduce computes the spending dictionary |
| CategoryRadar.Radar | components/charts/category-spending-radar.tsx:83-85 | the 8 categories with the largest current spending (all of them when there are fewer), distinct, largest first, each with its two sums; no dropped category spent more this month than a kept one |
| CategoryRadar.JanuaryHasNoPrevious | components/charts/category-spending-radar.tsx:52-53 | with the month-index test, in January every previous-month sum is 0 |
| CategoryRadar.JanuaryDropsDecember | components/charts/category-spending-radar.tsx:52-60 | a December row seen in January is ignored by the chart's test and counted as previous by the calendar test |
| CategoryRadar.OtherYearsCounted | components/charts/category-spending-radar.tsx:56-60 | a row of the same month two years earlier is counted as current by the chart's test and ignored by the calendar test |
| CategoryRadar.CalendarRuleExact | components/charts/category-spending-radar.tsx:52-60 | the calendar test counts exactly today's calendar month as current and the calendar month before it as previous |
| Records.PrevMonth | components/charts/category-spending-radar.tsx:53 | the month before a valid month is valid and one rank earlier, across a change of year |
| MonthBuckets.BucketsOf | components/charts/spending-trends.tsx:61-72 | the buckets have one entry per month |
| MonthBuckets.BucketLookup | components/charts/spending-trends.tsx:61-72 | a month has a bucket exactly when some row falls in it, and the bucket holds the split of exactly those rows |
| MonthBuckets.BucketSums | components/charts/income-expenses.tsx:35-46 | the buckets add up to the split of all rows: no row is lost |
| MonthBuckets.BucketEntries | components/charts/spending-trends.tsx:63-65 | every bucket is a month of some row holding that month's split, with both sides non-negative |
| MonthBuckets.Buckets | components/charts/spending-trends.tsx:61-72 | the in-place reduce computes the buckets |
| MonthBuckets.ChronologicalEntries | components/charts/spending-trends.tsx:74-76 | sorting loses and adds no bucket: each sorted bucket is a month of some row with its split |
| MonthBuckets.ChronologicalCovers | components/charts/spending-trends.tsx:61-76 | the month of every row has a point after the sort |
| MonthBuckets.ChronologicalOrder | components/charts/spending-trends.tsx:74-76 | the sorted buckets are a permutation of the buckets and run strictly forward in time |
| SpendingTrends.Trends | components/charts/spending-trends.tsx:61-76 | no data gives no points; otherwise the buckets in chronological order, one per bucket |
| SpendingTrends.NetTotal | components/charts/spending-trends.tsx:145 | the net line's points add up to the signed sum of all amounts |
| SpendingTrends.TrendPoints | components/charts/spending-trends.tsx:61-76 | each point is a month with rows holding its split, every row's month has a point, and the points run strictly forward in time |
| IncomeExpenses.Digits | components/charts/income-expenses.tsx:36 | a number written zero-padded has exactly the requested width |
| IncomeExpenses.DigitsOrder | components/charts/income-expenses.tsx:54 | zero-padded numbers of one width compare as strings exactly as they compare as numbers |
| IncomeExpenses.KeyOrder | components/charts/income-expenses.tsx:54 | "yyyy-MM" keys compare as strings exactly as the months compare in time, and are equal exactly when the months are |
| IncomeExpenses.RowsOf | components/charts/income-expenses.tsx:48-53 | one `{ date, income, expenses }` point per bucket, keyed by the month's "yyyy-MM" |
| IncomeExpenses.ChartRows | components/charts/income-expenses.tsx:48-54 | as many points as buckets |
| IncomeExpenses.ChartPoints | components/charts/income-expenses.tsx:35-53 | every point is the point of a month that has rows |
| IncomeExpenses.ChartCovers | components/charts/income-expenses.tsx:35-54 | every month that has rows gets its point, holding that month's income and expenses |
| IncomeExpenses.ChartOrder | components/charts/income-expenses.tsx:54 | the points run strictly upwards in `localeCompare` order, so no month appears twice |
| IncomeExpenses.ChartTotals | components/charts/income-expenses.tsx:35-46 | the points add up to the split of all rows |
| IncomeExpenses.IncomeExpensesChart | components/charts/income-expenses.tsx:35-54 | the chart data: the point of a month with rows at each position, a point for every month that has rows, strictly ascending keys, totals equal to the split of all rows |
| AccountBalanceComparison.PivotOf | components/charts/account-balance-comparison.tsx:84-91 | the pivot has one record per day |
| AccountBalanceComparison.PivotHasDay | components/charts/account-balance-comparison.tsx:86-88 | a day has a record exactly when some row has that day |
| AccountBalanceComparison.PivotLookup | components/charts/account-balance-comparison.tsx:89 | in a day's record an account holds the balance of its last row of that day, and is absent if it has none |
| AccountBalanceComparison.PivotDays | components/charts/account-balance-comparison.tsx:98-101 | the chart rows are exactly the days of the input |
| AccountBalanceComparison.PivotAscending | components/charts/account-balance-comparison.tsx:80-101 | rows ordered by day give chart rows strictly forward in time |
| AccountBalanceComparison.Pivot | components/charts/account-balance-comparison.tsx:84-91 | the in-place reduce computes the pivot |
| AccountBalanceComparison.AccountsOf | components/charts/account-balance-comparison.tsx:94-97 | one chart account per account row, in order, with its document id and its label |
| AccountBalanceComparison.SeriesOf | components/charts/account-balance-comparison.tsx:173-179 | one series per account in order, with its id as data key, its label as name and palette colour index mod 5 |
| AccountBalanceComparison.ChartSeries | components/charts/account-balance-comparison.tsx:94-97 | the i-th area of the chart draws the i-th account row's document id, is named by its label and takes colour i mod 5; rows with different ids draw different data keys |
| AccountBalanceComparison.SeriesColors | components/charts/account-balance-comparison.tsx:114-120 | colours repeat every five accounts, and any five consecutive accounts have five different colours |
| Filters.WithDateRange | lib/stores/filters.ts:15 | setting the range replaces it and keeps the selection |
| Filters.WithSelectedAccounts | lib/stores/filters.ts:16 | setting the selection replaces it and keeps the range |
| Filters.SettersIdempotentAndIndependent | lib/stores/filters.ts:15-16 | each setter is idempotent, and the two commute |
| Filters.FilterStore.constructor | lib/stores/filters.ts:12-14 | the store starts with range [null, null] and no selected account |
| Filters.FilterStore.SetDateRange | lib/stores/filters.ts:15 | the new state is the old one with the new range |
| Filters.FilterStore.SetSelectedAccounts | lib/stores/filters.ts:16 | the new state is the old one with the new selection |
| FilteredOperations.AdmitsAdded | hooks/use-filtered-operations.ts:28-36 | adding a filter narrows the query by exactly that filter |
| FilteredOperations.BuildQuery | hooks/use-filtered-operations.ts:19-36 | the query is newest first, admits exactly the rows on or after the start, on or before the end and among a non-empty selection, has at most 3 filters and none when nothing is set |
| FilteredOperations.KeyIdentifiesFilters | hooks/use-filtered-operations.ts:17 | equal filters give equal query keys, and different filters different keys |

## Left out

- Remote store I/O: every query to the remote store, the client of lib/supabase-client.ts and
  the error throws. Query results are inputs. The server-side filters (`.not("cozy_amount",
  "is", null)`, `.lt("cozy_amount", 0)`, the month ranges) are left to the caller. Where the
  code reads a date with `!`, the model requires it to be present (`DatesPresent`).
- React Query caching, refetching and loading states, and all rendering: layout, charts,
  tooltips, dialogs and icons.
- Date parsing and formatting with date-fns and `new Date(...)`, and time zones. A day is a
  `(year, month, day)` triple. `getMonth()` is `month - 1`. The "yyyy-MM" key is spelled out
  digit by digit (`IncomeExpenses.MonthKey`). The "MMM yyyy" key of the spending trends is the
  calendar month itself, with its `new Date(name)` sort taken as chronological order. The
  realisation-date filters compare whole days. `new Date(null)` on a radar row without a date
  is excluded by the precondition.
- Floating point: `toFixed` display rounding and `parseFloat` of balance strings. Amounts are
  integer cents. Balances arrive already parsed, as optional integers. Quotients are exact
  reals.
- CategoryCharts.Percentage: a zero total gives NaN or an infinity in JavaScript. The model
  gives `None`.
- The order of equal keys after a sort is not promised. The model's sort is stable, but the
  contracts state only the non-increasing or ascending order.
- `localeCompare` is modelled as plain character order. On the all-digit "yyyy-MM" keys the
  two agree.
- The JavaScript key order of objects whose keys look like array indices is not modelled.
  Such keys are listed first in numeric order. The month and day keys here never have that
  form, so the model lists keys in first-write order.
- AccountBalanceComparison.PivotOf: the spread `{ date, ...balances }` lets an account whose id
  is literally "date" overwrite the day. The model keeps the day and the record apart. A null
  account id becomes the property name "null".
- AccountBalanceComparison.SeriesOf: the colour stops of the gradient definitions
  (account-balance-comparison.tsx:129-148) use the same palette index. They are not modelled
  separately.
- FilteredOperations.BuildQuery: the query is a value describing its filters. The SQL
  evaluation of `.gte`, `.lte` and `.in` is the `Holds` predicate, where a null column passes
  no filter.
- types/supabase.ts holds type declarations only. `Records` follows its row shapes.
- The uncategorized-operations mutation, the balance chart's remote procedure call, the
  pages, the navigation and the remaining display-only components are not part of this
  model.

## Findings

| source | as written | input that shows it | evidently intended | confidence | as-written member | corrected member |
|---|---|---|---|---|---|---|
| components/charts/category-spending-radar.tsx:52-60 | a row counts for the current month when `getMonth()` equals today's, and for the previous month when it equals today's minus 1, whatever the year | today 10 January 2025, a row of 15 December 2024: today minus 1 is -1, so the row is ignored and every `previous` is 0 | the previous calendar month, December of the year before in January | not executed | CategoryRadar.JanuaryDropsDecember | CategoryRadar.CalendarRuleExact |
| components/charts/category-spending-radar.tsx:56-60 | the month test ignores the year | today 10 March 2025, a row of 2 March 2023: it is counted as this month's spending | only rows of today's calendar month count as current | not executed | CategoryRadar.OtherYearsCounted | CategoryRadar.CalendarRuleExact |

The radar is parameterised by its `Rule`. `MonthIndexRule` is the chart's test as written,
and `JanuaryHasNoPrevious` proves its January behaviour for every input. `CalendarRule` is
the corrected test, and `CategoryRadar.Radar` proves its guarantees under either rule.
