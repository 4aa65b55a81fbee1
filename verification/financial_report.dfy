/** `getFinancialReport`: category rollup, month-by-month breakdown and summary of
    the caller's transactions between two days, both included. */
module FinancialReportHandler {
  import opened Outcomes
  import opened Dates
  import opened Schema
  import opened Store
  import opened Query
  import opened CategoryRollup
  import opened Breakdown
  import MonthlySummaryHandler

  /** `period_type`, "custom" when the caller gives none. */
  function PeriodOrDefault(p: Option<PeriodType>): (t: PeriodType)
    ensures p.Some? ==> t == p.value
    ensures p.None? ==> t == Custom
  {
    match p
    case Some(v) => v
    case None => Custom
  }

  /** Both report queries use this one filter: the caller's rows dated from
      `start` to `end`, both days included. */
  function ReportRows(l: Ledger, owner: UserId, start: Date, end: Date): seq<Row> {
    Rows(l, owner, Closed(start, end))
  }

  /** The report for two parsed days.  There is no check that `start` is not after
      `end`. */
  function BuildReport(l: Ledger, owner: UserId, f: DateRangeFilter, start: Date, end: Date): (r: FinancialReport)
    ensures r.period == Period(f.startDate, f.endDate, PeriodOrDefault(f.periodType))
    ensures r.summary.balance == r.summary.totalIncome - r.summary.totalExpense
    ensures IncomeSum(r.monthlyBreakdown) == r.summary.totalIncome
    ensures ExpenseSum(r.monthlyBreakdown) == r.summary.totalExpense
    ensures GroupsDistinct(r.categories) && Ascending(r.monthlyBreakdown)
    ensures AmountsPositive(l.transactions) ==> r.summary.totalIncome >= 0 && r.summary.totalExpense >= 0
  {
    var rows := ReportRows(l, owner, start, end);
    var categories := Rollup(rows);
    var breakdown := MonthlyBreakdown(rows);
    var income := KindSum(categories, Income);
    var expense := KindSum(categories, Expense);
    RollupDistinct(rows);
    RollupKindSum(rows, Income);
    RollupKindSum(rows, Expense);
    BreakdownSums(rows);
    TotalsNonNegative(l, owner, Closed(start, end));
    FinancialReport(Period(f.startDate, f.endDate, PeriodOrDefault(f.periodType)),
                    Totals(income, expense, income - expense), categories, breakdown)
  }

  /** Binds both filter days and builds the report; a day that does not read as
      `YYYY-MM-DD`, or that the database cannot hold, makes the query fail.  The
      range is not checked: an inverted one just selects nothing. */
  function GetFinancialReport(l: Ledger, owner: UserId, f: DateRangeFilter): (r: Result<FinancialReport>)
    ensures r.Success? <==> ParseDate(f.startDate).Some? && ParseDate(f.endDate).Some?
                            && StorableDay(ParseDate(f.startDate).value) && StorableDay(ParseDate(f.endDate).value)
    ensures r.Failure? ==> r.error == BindDays(f.startDate, f.endDate).error
    ensures r.Success? ==> r.value.period == Period(f.startDate, f.endDate, PeriodOrDefault(f.periodType))
    ensures r.Success? ==> r.value.summary.balance == r.value.summary.totalIncome - r.value.summary.totalExpense
    ensures r.Success? ==> IncomeSum(r.value.monthlyBreakdown) == r.value.summary.totalIncome
    ensures r.Success? ==> ExpenseSum(r.value.monthlyBreakdown) == r.value.summary.totalExpense
  {
    var (start, end) :- BindDays(f.startDate, f.endDate);
    Success(BuildReport(l, owner, f, start, end))
  }

  /** `categories` has one line per category with at least one row in the window,
      carrying that category's total and count; categories without rows are absent;
      the summary totals are the kind totals of the window's rows. */
  lemma ReportCategories(l: Ledger, owner: UserId, f: DateRangeFilter, start: Date, end: Date, g: GroupKey)
    ensures HasGroup(BuildReport(l, owner, f, start, end).categories, g)
            <==> exists r :: r in ReportRows(l, owner, start, end) && KeyOfRow(r) == g
    ensures LineTotal(BuildReport(l, owner, f, start, end).categories, g) == GroupTotal(ReportRows(l, owner, start, end), g)
    ensures LineCount(BuildReport(l, owner, f, start, end).categories, g) == GroupCount(ReportRows(l, owner, start, end), g)
    ensures BuildReport(l, owner, f, start, end).summary.totalIncome == KindTotal(ReportRows(l, owner, start, end), Income)
    ensures BuildReport(l, owner, f, start, end).summary.totalExpense == KindTotal(ReportRows(l, owner, start, end), Expense)
  {
    RollupKindSum(ReportRows(l, owner, start, end), Income);
    RollupKindSum(ReportRows(l, owner, start, end), Expense);
    RollupCorrect(ReportRows(l, owner, start, end), g);
  }

  /** Each category line names a stored category, with that category's own name
      and kind. */
  lemma ReportLineIsStoredCategory(l: Ledger, owner: UserId, f: DateRangeFilter, start: Date, end: Date, i: int)
    requires 0 <= i < |BuildReport(l, owner, f, start, end).categories|
    ensures var e := BuildReport(l, owner, f, start, end).categories[i];
            exists c :: c in l.categories && c.id == e.categoryId && c.name == e.categoryName && c.kind == e.categoryKind
  {
    RollupLine(ReportRows(l, owner, start, end), i);
  }

  /** `monthly_breakdown` has an entry exactly for the months with rows in the window,
      ascending; each entry sums only the window's rows of its month. */
  lemma ReportMonths(l: Ledger, owner: UserId, f: DateRangeFilter, start: Date, end: Date, ym: YearMonth)
    ensures HasMonth(BuildReport(l, owner, f, start, end).monthlyBreakdown, ym)
            <==> exists r :: r in ReportRows(l, owner, start, end) && RowMonth(r) == ym
    ensures MonthIncome(BuildReport(l, owner, f, start, end).monthlyBreakdown, ym)
            == MonthKindTotal(ReportRows(l, owner, start, end), ym, Income)
    ensures MonthExpense(BuildReport(l, owner, f, start, end).monthlyBreakdown, ym)
            == MonthKindTotal(ReportRows(l, owner, start, end), ym, Expense)
  {
    BreakdownCorrect(ReportRows(l, owner, start, end), ym);
  }

  /** A start after the end is not rejected: the report is empty with zero totals. */
  lemma InvertedRangeIsEmpty(l: Ledger, owner: UserId, f: DateRangeFilter, start: Date, end: Date)
    requires Precedes(end, start)
    ensures BuildReport(l, owner, f, start, end).categories == []
    ensures BuildReport(l, owner, f, start, end).monthlyBreakdown == []
    ensures BuildReport(l, owner, f, start, end).summary == Totals(0, 0, 0)
  {
    InvertedWindowIsEmpty(l, owner, start, end);
  }

  /** A report from the first to the last day of the month a monthly summary reads
      has that summary's totals, although one window is closed and the other
      half-open.  For a year from 0 to 99 the summary reads a month of 1900 to 1999
      (`MonthlySummaryHandler.SummaryMonth`), so the matching report is over that
      month and not over the literal year; `TwoDigitYearReportDiffers` shows the
      two differ. */
  lemma WholeMonthReportMatchesSummary(l: Ledger, owner: UserId, mf: MonthlyFilter, p: Option<PeriodType>)
    requires DatesValid(l.transactions) && ValidMonthlyFilter(mf)
    requires FourDigitYear(MonthlySummaryHandler.SummaryMonth(mf).year)
    ensures var ym := MonthlySummaryHandler.SummaryMonth(mf);
            var f := DateRangeFilter(FormatDate(FirstDay(ym)), FormatDate(LastDay(ym)), p);
            var r := GetFinancialReport(l, owner, f);
            var s := MonthlySummaryHandler.GetMonthlySummary(l, owner, mf);
            r.Success? && r.value.summary == Totals(s.totalIncome, s.totalExpense, s.balance)
  {
    var ym := MonthlySummaryHandler.SummaryMonth(mf);
    ParseFormatRoundTrip(FirstDay(ym));
    ParseFormatRoundTrip(LastDay(ym));
    forall t | t in l.transactions
      ensures InWindow(Closed(FirstDay(ym), LastDay(ym)), t.date) <==> InWindow(Month(ym), t.date)
    {
      ClosedMonthWindow(t.date, ym);
    }
    SelectAgrees(l.transactions, l.categories, owner, Closed(FirstDay(ym), LastDay(ym)), Month(ym));
    MonthlySummaryHandler.MonthWindowIsCalendarMonth(l, owner, mf);
    RollupKindSum(ReportRows(l, owner, FirstDay(ym), LastDay(ym)), Income);
    RollupKindSum(ReportRows(l, owner, FirstDay(ym), LastDay(ym)), Expense);
  }

  /** A ledger with one user, one income category and a single income of `amount`
      cents dated the 15th of January of year `y`. */
  function OneIncome(y: int, amount: Cents): Ledger {
    Ledger({1}, [Category(0, 1, "Salary", Income, None, 0)],
           [Transaction(0, 1, 0, amount, None, Date(y, 1, 15), 0, 0)], 1, 1)
  }

  lemma OneIncomeValid(y: int, amount: Cents)
    requires y >= 1 && 0 < amount < AmountLimit
    ensures Valid(OneIncome(y, amount))
  {
    var l := OneIncome(y, amount);
    assert HasCategory(l.categories, 0) by {
      assert l.categories[0] in l.categories;
    }
  }

  /** The report from the 1st to the 31st of that January counts the income. */
  lemma OneIncomeReport(y: int, amount: Cents)
    requires 1 <= y <= 9999
    ensures var f := DateRangeFilter(FormatDate(Date(y, 1, 1)), FormatDate(Date(y, 1, 31)), None);
            && GetFinancialReport(OneIncome(y, amount), 1, f).Success?
            && GetFinancialReport(OneIncome(y, amount), 1, f).value.summary.totalIncome == amount
  {
    var l := OneIncome(y, amount);
    var start, end := Date(y, 1, 1), Date(y, 1, 31);
    var f := DateRangeFilter(FormatDate(start), FormatDate(end), None);
    ParseFormatRoundTrip(start);
    ParseFormatRoundTrip(end);
    assert GetFinancialReport(l, 1, f) == Success(BuildReport(l, 1, f, start, end));
    assert CategoryById(l.categories, 0) == Some(l.categories[0]);
    var rows := ReportRows(l, 1, start, end);
    assert rows == [Row(l.transactions[0], l.categories[0])];
    assert KindTotal(rows, Income) == amount by {
      assert rows[..0] == [];
    }
    ReportCategories(l, 1, f, start, end, GroupKey(0, "Salary", Income));
  }

  /** The summary for year `y`, month 1 finds nothing when `y` is from 0 to 99. */
  lemma OneIncomeSummary(y: int, amount: Cents)
    requires 0 <= y <= 99
    ensures MonthlySummaryHandler.GetMonthlySummary(OneIncome(y, amount), 1, MonthlyFilter(y, 1)).totalIncome == 0
  {
    var l := OneIncome(y, amount);
    var w := MonthlySummaryHandler.MonthWindow(MonthlyFilter(y, 1));
    assert w == HalfOpen(Date(1900 + y, 1, 1), Date(1900 + y, 2, 1));
    assert Rows(l, 1, w) == [];
  }

  /** The report and the monthly summary disagree on every two-digit year the
      database can store: on a valid ledger holding one income dated in January of
      year `y`, the report over that January counts it, while the summary for year
      `y`, month 1 totals January of `1900 + y` and finds nothing.  (Year 0 cannot be
      stored, and a report over it fails with `DateOutOfRange`.) */
  lemma TwoDigitYearReportDiffers(y: int, amount: Cents)
    requires 1 <= y <= 99 && 0 < amount < AmountLimit
    ensures var f := DateRangeFilter(FormatDate(Date(y, 1, 1)), FormatDate(Date(y, 1, 31)), None);
            && Valid(OneIncome(y, amount))
            && GetFinancialReport(OneIncome(y, amount), 1, f).Success?
            && GetFinancialReport(OneIncome(y, amount), 1, f).value.summary.totalIncome == amount
            && MonthlySummaryHandler.GetMonthlySummary(OneIncome(y, amount), 1, MonthlyFilter(y, 1)).totalIncome == 0
  {
    OneIncomeValid(y, amount);
    OneIncomeReport(y, amount);
    OneIncomeSummary(y, amount);
  }

  /** Another user's transactions never change the caller's report. */
  lemma ReportIgnoresOthers(l: Ledger, owner: UserId, f: DateRangeFilter, t: Transaction)
    requires t.owner != owner
    ensures GetFinancialReport(l.(transactions := l.transactions + [t]), owner, f) == GetFinancialReport(l, owner, f)
  {
    var l' := l.(transactions := l.transactions + [t]);
    if BindDays(f.startDate, f.endDate).Success? {
      var (start, end) := BindDays(f.startDate, f.endDate).value;
      SelectIgnoresOthers(l.transactions, t, l.categories, owner, Closed(start, end));
      assert ReportRows(l', owner, start, end) == ReportRows(l, owner, start, end);
      assert BuildReport(l', owner, f, start, end) == BuildReport(l, owner, f, start, end);
    }
  }
}
