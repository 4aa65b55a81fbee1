# Finance tracker ledger, in Dafny

A model of the server of a personal finance tracker. Each user owns income and
expense **categories**. Each **transaction** carries a positive amount, a calendar
day and the category it belongs to. The server's handlers read and change this
ledger:

- **Reads.**
  - The **monthly summary**: income, expense, balance and an overspent flag for one month.
  - The **financial report** over a range of days: one line per category,
    a month-by-month breakdown and overall totals.
  - The **dashboard**: this month's summary, the ten newest transactions, the last six
    months compared, and the five largest categories this month.
  - The **export**: it checks the range, totals it, and names the file to download.
- **Writes.** Listing, creating, renaming/recolouring and deleting categories, and
  listing, creating and deleting transactions. Each write has its ownership and
  reference guards.

The database becomes a `Ledger` value: a set of user ids, a sequence of categories,
a sequence of transactions, and the two id sequences. `Store.Valid` collects the
integrity constraints: unique ids, ids below the counters, foreign keys to users and
categories, positive amounts that fit the `numeric(15,2)` column, and real calendar
days from year 1 on. Every query the handlers run
(`transactions INNER JOIN categories`, filtered on the caller and a date window) is
`Query.Select`. The aggregations over its rows are plain folds: per-kind sums, the
per-category `GROUP BY`, the per-month breakdown, and top-k by a key. Amounts are
integer cents. Dates are timezone-free `(year, month, day)` values, read and written
in the `YYYY-MM-DD` form of section 4.1.2.2 of ISO 8601:2004. The clock (`new Date()`,
`Date.now()`, the database's `now()`) enters as a parameter.

Modules, in dependency order:

- `Outcomes`: `Option`, `Result`, the error kinds and their messages.
- `Text`: decimal digits and numerals.
- `Dates`: the calendar, the month arithmetic of `new Date(y, m, d)`, and day parsing/formatting.
- `Schema`: records, inputs, validity predicates and result shapes.
- `Store`: the ledger and its invariant.
- `Tables`: `WHERE` filtering.
- `Ranking`: `ORDER BY … DESC LIMIT k`.
- `Query`: the join and the per-kind sums.
- `CategoryRollup`: the per-category `GROUP BY`.
- `Breakdown`: the monthly map.
- One module per handler group: `MonthlySummaryHandler`, `FinancialReportHandler`,
  `DashboardHandler`, `ExportHandler`, `CategoryHandlers` and `TransactionHandlers`.

A handler whose own checks fail returns `Failure(error)` and no ledger: the store is
as it was. An insert that the database itself rejects is different. This covers a
category or transaction whose owner is not a user, and an amount that overflows
`numeric(15,2)`. Such an insert still uses up the next id of its table's serial
sequence. `CategoryHandlers.StoreAfterCreateCategory` and
`TransactionHandlers.StoreAfterCreateTransaction` give the store after any create
call, and `CategoryHandlers.FailedCreateSkipsAnId` shows the gap this leaves in the
ids.

PostgreSQL's `date` type has no year 0, so a `0000-MM-DD` day is out of range
(`Dates.StorableDay`). The runtime reads such a day without complaint. The database
then refuses it when it binds the parameter, before any row is formed and before any
id is drawn. So `createTransaction` fails with `DateOutOfRange` for such a day, and so
does any date-range query over one (`Dates.BindDays`, used by `getTransactions`,
`getFinancialReport` and `exportReport`). `Store.Valid` therefore holds only days from
year 1 on.

Two more behaviours of the code are worth knowing:

- `getFinancialReport` does not check the range: an inverted range gives an empty
  report (`FinancialReportHandler.InvertedRangeIsEmpty`). Only `exportReport`
  rejects it.
- The monthly summary and the dashboard build their month bounds with the `Date`
  constructor, which reads a year from 0 to 99 as 1900 to 1999 (section 21.4.2.1 of
  ECMA-262, the 2024 edition). So the summary for year 24 echoes year 24 but totals a
  month of 1924 (`MonthlySummaryHandler.TwoDigitYearReadsNineteenHundreds`). The
  report reads `YYYY-MM-DD` days literally, so for the years 1 to 99 the two handlers
  disagree (`FinancialReportHandler.TwoDigitYearReportDiffers`).

## Model

| member | source | states |
|---|---|---|
| Text.NatToString | server/src/handlers/export_report.ts:76 | a user id or timestamp prints as a non-empty decimal numeral without leading zeros |
| Text.NatToStringInjective | server/src/handlers/export_report.ts:76 | distinct numbers print differently, so the numerals in a file name identify the user and the time |
| Dates.DaysInMonth | server/src/handlers/get_dashboard_data.ts:15 | a month has 28 to 31 days, and 29 exactly for February of a leap year |
| Dates.LastDay | server/src/handlers/get_dashboard_data.ts:15 | day 0 of the next month is a real day of this month whose successor is not a day of it |
| Dates.NextMonth | server/src/handlers/get_monthly_summary.ts:11 | the month after a valid month is valid; December wraps to January of the next year |
| Dates.FromMonthIndex | server/src/handlers/get_dashboard_data.ts:87-89 | an out-of-range month index normalises to the valid (year, month) with that index, as the `Date` constructor normalises its month argument |
| Dates.ConstructorYear | server/src/handlers/get_monthly_summary.ts:10-11 | the constructor never builds on a year from 0 to 99: those become 1900 to 1999, and every other year is kept |
| Dates.ConstructedMonth | server/src/handlers/get_dashboard_data.ts:87 | `new Date(y, mi, 1)` lies in a valid month `mi` months after January of the year the constructor reads from `y` |
| Dates.ConstructedMonthInRange | server/src/handlers/get_monthly_summary.ts:10-11 | for months 1 to 12, `new Date(y, m - 1, 1)` is month m of the constructor's year and `new Date(y, m, 1)` is the month after it |
| Dates.NextMonthIsShiftByOne | server/src/handlers/get_monthly_summary.ts:11 | the next month has the next month index, and it is the month that `new Date(y, m, 1)` normalises that index to |
| Dates.MonthIndexOrder | server/src/handlers/get_financial_report.ts:64-67 | among valid months, a smaller month index is exactly an earlier year, or the same year and an earlier month |
| Dates.HalfOpenMonthWindow | server/src/handlers/get_monthly_summary.ts:24-25 | on a real day, first-of-month <= d < first-of-next-month holds iff d lies in that month |
| Dates.ClosedMonthWindow | server/src/handlers/get_dashboard_data.ts:28-29 | on a real day, first <= d <= last day of the month holds iff d lies in that month |
| Dates.DayKeyOrder | server/src/handlers/get_transactions.ts:30 | on real days the numeric day key orders exactly as the dates do |
| Dates.ParseDate | server/src/handlers/create_transaction.ts:23-26 | a parsed `YYYY-MM-DD` string is ten characters with dashes in place and names a real calendar day |
| Dates.ParseFormatRoundTrip | server/src/handlers/create_transaction.ts:23 | formatting a real day with a four-digit year and parsing it back gives the same day |
| Dates.FormatParseRoundTrip | server/src/handlers/create_transaction.ts:23 | a string that parses formats back to itself, so the stored day is exactly the day the caller sent |
| Dates.YearZeroDayReads | server/src/handlers/create_transaction.ts:23-26 | `0000-01-15` reads as a real day of year 0, so the runtime's check lets it through |
| Dates.BindDays | server/src/handlers/get_financial_report.ts:9-29 | the two filter days reach the query iff both parse and lie in year 1 or later; an unreadable day is an invalid time value, and otherwise a year-0 day is out of range |
| Store.NullIfEmpty | server/src/handlers/create_category.ts:14 | an absent or empty text is stored as null; any other text is stored as given |
| Store.CategoryById | server/src/handlers/get_monthly_summary.ts:20 | the join finds a category exactly when one with that id exists, and it carries that id |
| Store.OwnedCategory | server/src/handlers/delete_category.ts:9-15 | the `id AND user_id` lookup succeeds iff the caller owns a category with that id |
| Store.CategoryByIdUnique | server/src/handlers/get_financial_report.ts:22 | with unique ids the join finds the one category carrying the id |
| Tables.Filter | server/src/handlers/get_categories.ts:9-12 | a `WHERE` keeps exactly the rows meeting its condition, and never adds or repeats rows |
| Tables.FilterKeysUnique | server/src/handlers/delete_transaction.ts:9-15 | deleting rows never breaks a primary key |
| Tables.FilterRemovesOne | server/src/handlers/delete_transaction.ts:9-15 | when the condition singles out one row by its unique key, exactly that row is removed |
| Ranking.SortDesc | server/src/handlers/get_transactions.ts:30 | the result is a rearrangement of the input with keys non-increasing |
| Ranking.Top | server/src/handlers/get_dashboard_data.ts:67-68 | min(k, n) rows drawn from the input, keys non-increasing, and no row left out has a larger key than a row kept |
| Query.Select | server/src/handlers/get_monthly_summary.ts:19-27 | a join row exists exactly for each of the caller's transactions dated in the window whose `category_id` names a category |
| Query.RowsComplete | server/src/handlers/get_financial_report.ts:21-29 | in a valid store every caller transaction in the window appears in the query |
| Query.SelectIgnoresOthers | server/src/handlers/get_monthly_summary.ts:23 | adding another user's transaction changes no query of the caller |
| Query.SelectSnoc | server/src/handlers/get_monthly_summary.ts:19-27 | a transaction added at the end of the table adds its own join row to every query that selects it |
| Query.InvertedWindowIsEmpty | server/src/handlers/get_financial_report.ts:26-27 | a window whose start is after its end selects nothing |
| Query.KindTotal | server/src/handlers/get_monthly_summary.ts:14-29 | the `SUM(amount)` per category kind; it has no contract of its own, and `Query.KindTotalBounds`, `CategoryRollup.RollupKindSum` and `Breakdown.BreakdownSums` state what it sums |
| Query.KindTotalBounds | server/src/handlers/get_monthly_summary.ts:36-43 | with positive amounts a kind's total is non-negative, and zero iff no row of that kind is present |
| Query.TotalsNonNegative | server/src/handlers/get_monthly_summary.ts:36-43 | positive stored amounts make both per-kind totals of any query non-negative |
| Query.Summarize | server/src/handlers/get_monthly_summary.ts:46-56 | a summary echoes the month, balance is income minus expense, overspent iff expense exceeds income |
| CategoryRollup.Rollup | server/src/handlers/get_financial_report.ts:13-31 | the `GROUP BY id, name, type` query; it has no contract of its own, and `CategoryRollup.RollupCorrect` and `CategoryRollup.RollupDistinct` state its result |
| CategoryRollup.RollupCorrect | server/src/handlers/get_financial_report.ts:13-31 | there is a line exactly for each (id, name, kind) group with rows, and it holds the group's sum and row count |
| CategoryRollup.RollupDistinct | server/src/handlers/get_financial_report.ts:30 | no group appears on two lines |
| CategoryRollup.RollupKindSum | server/src/handlers/get_financial_report.ts:105-111 | the lines of one kind sum to the kind's total over all rows |
| CategoryRollup.RollupLine | server/src/handlers/get_financial_report.ts:34-40 | each line's total and count are those of its group, and the group has a row |
| CategoryRollup.GroupCountPositive | server/src/handlers/get_financial_report.ts:19 | a group that has a row counts at least one transaction |
| CategoryRollup.RollupMember | server/src/handlers/get_dashboard_data.ts:132-149 | every line carries its group's sum and count, and the count is at least one |
| Breakdown.Entry | server/src/handlers/get_financial_report.ts:95-102 | a month entry has balance = income - expense and is overspent iff expense > income |
| Breakdown.MonthlyBreakdown | server/src/handlers/get_financial_report.ts:95-102 | every entry keeps the balance and overspent rule, and no rows give no entries |
| Breakdown.AscendingByIndex | server/src/handlers/get_financial_report.ts:64-67 | the `ORDER BY year, month` order of the breakdown is exactly increasing month index |
| Breakdown.Accumulate | server/src/handlers/get_financial_report.ts:71-92 | the fold into the per-month map; it has no contract of its own, and `Breakdown.BreakdownCorrect` and `Breakdown.BreakdownSums` state its result |
| Breakdown.BreakdownCorrect | server/src/handlers/get_financial_report.ts:71-92 | there is an entry exactly for each month with rows, and it holds that month's per-kind sums |
| Breakdown.BreakdownSums | server/src/handlers/get_financial_report.ts:59-67 | entries ascend by (year, month), and their incomes and expenses add up to the per-kind totals |
| Breakdown.BreakdownEntry | server/src/handlers/get_financial_report.ts:84-101 | entry i sums only rows of its own month, and that month has a row |
| MonthlySummaryHandler.SummaryMonth | server/src/handlers/get_monthly_summary.ts:10-11 | the window is the requested month of the requested year, except that years 0 to 99 read as 1900 to 1999 |
| MonthlySummaryHandler.GetMonthlySummary | server/src/handlers/get_monthly_summary.ts:7-56 | the result echoes the filter's year and month as given, balance is income minus expense, overspent iff balance < 0, totals non-negative |
| MonthlySummaryHandler.MonthWindow | server/src/handlers/get_monthly_summary.ts:10-11 | the bounds `new Date(year, month - 1, 1)` and `new Date(year, month, 1)`; it has no contract of its own, and `MonthlySummaryHandler.SummaryMonth` and `MonthlySummaryHandler.MonthWindowIsCalendarMonth` state which month it covers |
| MonthlySummaryHandler.MonthWindowIsCalendarMonth | server/src/handlers/get_monthly_summary.ts:10-25 | the half-open window selects exactly the transactions dated in the month the constructor reads, also across December |
| MonthlySummaryHandler.MonthlySummaryTotals | server/src/handlers/get_monthly_summary.ts:36-43 | the totals are the per-kind sums of the caller's rows dated in the month the constructor reads |
| MonthlySummaryHandler.TwoDigitYearReadsNineteenHundreds | server/src/handlers/get_monthly_summary.ts:10-11 | for years 0 to 99 the summary echoes the year but totals that month of 1900 + year; no filter totals a month of the years 0 to 99 |
| MonthlySummaryHandler.EmptyMonthIsZero | server/src/handlers/get_monthly_summary.ts:32-33 | a month without caller transactions gives zeros and not overspent |
| MonthlySummaryHandler.MonthlySummaryIgnoresOthers | server/src/handlers/get_monthly_summary.ts:23 | another user's transactions never change the caller's summary |
| FinancialReportHandler.PeriodOrDefault | server/src/handlers/get_financial_report.ts:117 | the period type is the caller's, or custom when absent |
| FinancialReportHandler.BuildReport | server/src/handlers/get_financial_report.ts:7-126 | period echo, balance rule, breakdown sums equal summary totals, distinct lines, ascending months, non-negative totals |
| FinancialReportHandler.GetFinancialReport | server/src/handlers/get_financial_report.ts:9-10 | succeeds iff both days parse and lie in year 1 or later; otherwise it fails as `Dates.BindDays` does; the range itself is not checked; a success keeps the report properties |
| FinancialReportHandler.ReportCategories | server/src/handlers/get_financial_report.ts:13-40 | one line per category with rows in the window, with its sum and count; summary totals are the window's per-kind sums |
| FinancialReportHandler.ReportLineIsStoredCategory | server/src/handlers/get_financial_report.ts:15-17 | each line names a stored category with that category's own name and kind |
| FinancialReportHandler.ReportMonths | server/src/handlers/get_financial_report.ts:43-92 | an entry exactly for the months with rows in the window, each summing only that month |
| FinancialReportHandler.InvertedRangeIsEmpty | server/src/handlers/get_financial_report.ts:23-29 | a start after the end gives no lines, no months and zero totals |
| FinancialReportHandler.WholeMonthReportMatchesSummary | server/src/handlers/get_financial_report.ts:23-29 | a report from the first to the last day of the month a monthly summary reads has that summary's totals |
| FinancialReportHandler.TwoDigitYearReportDiffers | server/src/handlers/get_financial_report.ts:9-10 | for every year from 1 to 99, a valid one-income ledger gives the report over that January the income, and the summary for that year and month zero |
| FinancialReportHandler.ReportIgnoresOthers | server/src/handlers/get_financial_report.ts:25 | another user's transactions never change the caller's report |
| DashboardHandler.ClockMonth | server/src/handlers/get_dashboard_data.ts:10-15 | the current-month bounds lie in the clock's month of the constructor's year, which is the clock's year unless that is 0 to 99 |
| DashboardHandler.TargetMonth | server/src/handlers/get_dashboard_data.ts:86-89 | the month of entry j is a valid month exactly 5 - j months before the clock's month |
| DashboardHandler.AnnotateAll | server/src/handlers/get_dashboard_data.ts:71-82 | each row becomes one recent entry, in order |
| DashboardHandler.Compare | server/src/handlers/get_dashboard_data.ts:91-128 | a comparison entry names its month and has non-negative totals |
| DashboardHandler.Comparison | server/src/handlers/get_dashboard_data.ts:84-129 | exactly six valid consecutive months ending with the clock's month, oldest first, with non-negative totals |
| DashboardHandler.CurrentMonthSummary | server/src/handlers/get_dashboard_data.ts:9-48 | echoes today's year and month, with the balance rule, overspent iff balance < 0, and non-negative totals |
| DashboardHandler.RecentTransactions | server/src/handlers/get_dashboard_data.ts:51-82 | min(10, n) of the caller's join rows, each listed at most as often as the join yields it (a sub-multiset), newest creation time first |
| DashboardHandler.TopCategories | server/src/handlers/get_dashboard_data.ts:132-160 | min(5, number of lines) category lines of this month, drawn from the rollup, largest total first |
| DashboardHandler.GetDashboardData | server/src/handlers/get_dashboard_data.ts:162-174 | summary rules, at most 10 recent, exactly 6 months ending with the clock's month, at most 5 top categories sorted by total |
| DashboardHandler.DashboardMonthIsMonthlySummary | server/src/handlers/get_dashboard_data.ts:14-15 | on calendar days the current-month summary equals the monthly summary for the clock's year and month; both read the same month, two-digit years included |
| DashboardHandler.WholeMonthIsCalendarMonth | server/src/handlers/get_dashboard_data.ts:91-92 | the first-to-last-day window selects exactly the transactions of that month |
| DashboardHandler.ComparisonIsMonthlySummaries | server/src/handlers/get_dashboard_data.ts:86-121 | entry j, labelled with the month 5 - j months before the clock's, holds the totals of the monthly summary for that label |
| DashboardHandler.RecentAreNewest | server/src/handlers/get_dashboard_data.ts:66-68 | every listed transaction was created no earlier than any caller transaction left off the list |
| DashboardHandler.RecentCarryOwnCategory | server/src/handlers/get_dashboard_data.ts:61-62 | each recent entry carries the name and kind of the category its `category_id` names |
| DashboardHandler.TopCategoriesAreMonthLines | server/src/handlers/get_dashboard_data.ts:132-151 | each top line has its category's sum and count this month (count >= 1), and no line left out has a larger total |
| DashboardHandler.EmptyLedgerDashboard | server/src/handlers/get_dashboard_data.ts:35-48 | no transactions give a zero, not overspent summary, no recent entries, six zero months and no top lines |
| DashboardHandler.DashboardIgnoresOthers | server/src/handlers/get_dashboard_data.ts:27 | another user's transactions never change the caller's dashboard |
| ExportHandler.FormatName | server/src/handlers/export_report.ts:76 | a format's extension contains no dot |
| ExportHandler.FileName | server/src/handlers/export_report.ts:76 | the file name template; it has no contract of its own, and `ExportHandler.DownloadUrl` and `ExportHandler.DownloadUrlInjective` state its shape and that it names each export unambiguously |
| ExportHandler.DownloadUrl | server/src/handlers/export_report.ts:75-79 | the URL starts with the exports base and `financial_report_`, and ends with `.` followed by the format's extension |
| ExportHandler.ExportReport | server/src/handlers/export_report.ts:9-79 | succeeds iff both days parse, start <= end, and both lie in year 1 or later; unreadable days fail first, then start > end, then a year-0 day; the totals rule; count = rows in the window; the URL |
| ExportHandler.ExportMatchesReport | server/src/handlers/export_report.ts:40-49 | an export's totals are the financial report's summary for the same filter |
| ExportHandler.EmptyLedgerStillExports | server/src/handlers/export_report.ts:14-28 | with no transactions a well-ordered range still yields the URL, with zero totals |
| ExportHandler.DownloadUrlInjective | server/src/handlers/export_report.ts:76-79 | equal URLs for well-formed days mean equal user, start, end, timestamp and format |
| CategoryHandlers.GetCategories | server/src/handlers/get_categories.ts:9-15 | a category is listed iff the caller owns it, as stored |
| CategoryHandlers.CreateCategory | server/src/handlers/create_category.ts:9-24 | fails iff the owner is not a user; the new row gets the next id, the input's name and kind, and a null color when absent or empty; it is appended |
| CategoryHandlers.CreateCategoryPreservesValid | server/src/handlers/create_category.ts:9-17 | creation keeps the store valid, with an id no stored category had |
| CategoryHandlers.CreatedCategoryIsListed | server/src/handlers/create_category.ts:9-17 | the owner's list gains the new category at its end, and other users' lists are unchanged |
| CategoryHandlers.StoreAfterCreateCategory | server/src/handlers/create_category.ts:9-17 | every create call advances the category sequence by one; the category table changes iff the call succeeds; users and transactions never change |
| CategoryHandlers.StoreAfterCreateCategoryValid | server/src/handlers/create_category.ts:9-17 | the store after a create call is valid, whether the insert succeeded or was rejected |
| CategoryHandlers.FailedCreateSkipsAnId | server/src/handlers/create_category.ts:9-17 | after an insert rejected for an unknown owner, the next successful category gets the id after the one the failure used up |
| CategoryHandlers.Patched | server/src/handlers/update_category.ts:15-21 | name and color change only when given, and color may become null; id, owner, kind and creation time never change |
| CategoryHandlers.UpdateCategory | server/src/handlers/update_category.ts:24-37 | fails iff the caller owns no category with that id; otherwise only that row is patched, and the returned record is stored |
| CategoryHandlers.UpdateCategoryPreservesValid | server/src/handlers/update_category.ts:24-31 | an update keeps the store valid |
| CategoryHandlers.UpdateCategoryIdempotent | server/src/handlers/update_category.ts:15-31 | repeating an update changes nothing further and returns the same record |
| CategoryHandlers.DeleteCategory | server/src/handlers/delete_category.ts:9-40 | succeeds iff owned and unreferenced; not found wins over referenced; the reference check ignores the owner; only that category goes |
| CategoryHandlers.DeleteCategoryPreservesValid | server/src/handlers/delete_category.ts:22-38 | deletion keeps every transaction's category present and removes exactly one row |
| CategoryHandlers.DeleteCategoryTwice | server/src/handlers/delete_category.ts:9-19 | deleting the same category again reports it as not found |
| CategoryHandlers.ReferencedCategoryStays | server/src/handlers/delete_category.ts:22-30 | a category some transaction points at cannot be deleted |
| TransactionHandlers.ListingWindow | server/src/handlers/get_transactions.ts:16-24 | no filter means no date condition; a filter whose days parse and lie in year 1 or later means both days included; an unreadable day is an invalid time value, and a year-0 day is out of range |
| TransactionHandlers.GetTransactions | server/src/handlers/get_transactions.ts:8-37 | fails iff the filter's window fails, with its error; otherwise listed iff owned by the caller and in the window, each once, sorted by day descending |
| TransactionHandlers.TransactionsNewestFirst | server/src/handlers/get_transactions.ts:30 | over real days each listed transaction is dated no later than the one before it |
| TransactionHandlers.UnfilteredListsAll | server/src/handlers/get_transactions.ts:11-13 | without a filter every transaction of the caller is listed |
| TransactionHandlers.CreateTransaction | server/src/handlers/create_transaction.ts:9-45 | the category error wins over the date error, which wins over a year-0 day, which wins over an amount that overflows `numeric(15,2)`; it succeeds iff all of these pass and the owner is a user; the new row copies the input and gets a null empty description; its day lies in year 1 or later and formats back to the input; it is appended; categories are unchanged |
| TransactionHandlers.CreateTransactionPreservesValid | server/src/handlers/create_transaction.ts:29-38 | creation keeps the store valid |
| TransactionHandlers.StoreAfterCreateTransaction | server/src/handlers/create_transaction.ts:10-38 | the transaction sequence advances by one iff the category and date checks pass and the day lies in year 1 or later, so that the row is formed; the transaction table changes iff the call succeeds; users and categories never change |
| TransactionHandlers.StoreAfterCreateTransactionValid | server/src/handlers/create_transaction.ts:10-38 | the store after a create call is valid, whether it succeeded, failed a check or was rejected by the database |
| TransactionHandlers.YearZeroDayIsRefused | server/src/handlers/create_transaction.ts:23-38 | creating a transaction dated `0000-01-15` in an owned category fails as out of range, and leaves the store and its id sequence as they were |
| TransactionHandlers.CreatedTransactionCountsInItsMonth | server/src/handlers/create_transaction.ts:29-38 | a new transaction adds its amount to the summary of every filter that reads its month, under its category's kind, and leaves other summaries alone; one dated in the years 0 to 99 changes no summary |
| TransactionHandlers.DeleteTransaction | server/src/handlers/delete_transaction.ts:9-18 | success iff the caller owned a transaction with that id; only that row goes; on false nothing changes |
| TransactionHandlers.DeleteTransactionPreservesValid | server/src/handlers/delete_transaction.ts:9-15 | deletion keeps the store valid |
| TransactionHandlers.DeleteTransactionRemovesOne | server/src/handlers/delete_transaction.ts:9-15 | a successful deletion removes exactly one row |
| TransactionHandlers.DeleteTransactionTwice | server/src/handlers/delete_transaction.ts:9-18 | deleting the same id again returns false and changes nothing |

## Left out

- Authentication handlers (`register`, `login`, `change_password`): they rest on password hashing calls whose code is not part of this model. Their input rules are still in `Schema`.
- `update_transaction`: its handler is not part of this model.
- The HTTP/tRPC wiring, the fixed user id it supplies, logging, and the try/catch rethrow: the caller's id is a parameter, and errors are `Result` values.
- The client application: its totals are display-only recomputations.
- Floating point: amounts are integer cents, and `parseFloat`/`toString` conversions are not modelled.
- Timezones: the handlers mix local-midnight month bounds, UTC-midnight stored days, and `setHours(23, 59, 59, 999)`. The model uses timezone-free calendar days, so every window is a range of days.
- Date parsing: `ParseDate` accepts exactly `YYYY-MM-DD` strings naming a real day. The runtime parser's other accepted forms, and its handling of a day past the month's end, are not modelled.
- Locale month labels of the dashboard comparison: a month is a `YearMonth` pair.
- The clock: `now`, `today` and `timestamp` are parameters.
- Concurrency: the check-then-delete sequence of `deleteCategory` runs as one step.
- SQL row order where the query gives none. The category rollup lists groups in first-appearance order. Ties in the top-k lists keep table order. The properties about them are stated per group, or as multisets.
- The export's file generation and its `generated_at` stamp. The per-transaction list handed to the generator is represented only by its count.
- `UpdateCategory`: an update that sets neither field is modelled as no change; what the database layer does with an empty `SET` is not modelled.
- `ExportReport`: the source's only output is the download URL. The report data it builds is never returned or used. The model's `Export` also carries that data's `period_type` and summary, so `ExportMatchesReport` is about a value the program computes and then throws away. The data's `user_id`, `period` and transaction list are not represented.
- `GetMonthlySummary`: the request schema accepts any number as the year and any number from 1 to 12 as the month. Fractional values, which the `Date` constructor truncates, are not modelled, because `MonthlyFilter` has integer fields. Years so large that a bound falls outside the `Date` range (about 275,000 years either side of 1970) are not modelled either. There the constructor gives an invalid date and the query throws, while the model returns totals. Nor are years below 1 after the two-digit rule, such as -5. Their bounds fall before year 1. The model returns totals there and does not model what the database makes of such a bound.
- `DeleteCategory`: a failure returns no ledger, so "the store is unchanged" holds by construction rather than as a stated clause.
- `StoreAfterCreateTransaction`: takes an overflowing amount to use up a sequence id, like a rejected owner. PostgreSQL evaluates the `serial` default while it forms the row, before it coerces the amount to `numeric(15,2)`. That ordering is database behaviour, and the handler's code does not show it.
