/** `getMonthlySummary`: income, expense and balance of the caller's transactions
    in one calendar month. */
module MonthlySummaryHandler {
  import opened Dates
  import opened Schema
  import opened Store
  import opened Query

  /** From `new Date(year, month - 1, 1)` up to, but not including,
      `new Date(year, month, 1)`. */
  function MonthWindow(f: MonthlyFilter): Window {
    HalfOpen(FirstDay(ConstructedMonth(f.year, f.month - 1)), FirstDay(ConstructedMonth(f.year, f.month)))
  }

  /** The calendar month the window covers: the filter's month, in the year the
      `Date` constructor reads from the filter's year.  A year from 0 to 99 is
      read as 1900 to 1999, while the result still echoes the year as given. */
  function SummaryMonth(f: MonthlyFilter): (ym: YearMonth)
    requires ValidMonthlyFilter(f)
    ensures ym.month == f.month
    ensures ym.year == f.year <==> f.year < 0 || f.year >= 100
    ensures ym.year != f.year ==> ym.year == 1900 + f.year
    ensures MonthWindow(f) == HalfOpen(FirstDay(ym), FirstDay(NextMonth(ym)))
  {
    ConstructedMonthInRange(f.year, f.month);
    YearMonth(ConstructorYear(f.year), f.month)
  }

  function GetMonthlySummary(l: Ledger, owner: UserId, f: MonthlyFilter): (s: MonthlySummary)
    requires ValidMonthlyFilter(f)
    ensures s.year == f.year && s.month == f.month
    ensures s.balance == s.totalIncome - s.totalExpense
    ensures s.isOverspent <==> s.balance < 0
    ensures AmountsPositive(l.transactions) ==> s.totalIncome >= 0 && s.totalExpense >= 0
  {
    TotalsNonNegative(l, owner, MonthWindow(f));
    Summarize(YearMonth(f.year, f.month), Rows(l, owner, MonthWindow(f)))
  }

  /** The half-open window counts exactly the transactions whose date lies in the
      month `SummaryMonth(f)`; a transaction on the first of the next month, also
      across a December/January boundary, is not counted. */
  lemma {:induction false} MonthWindowIsCalendarMonth(l: Ledger, owner: UserId, f: MonthlyFilter)
    requires DatesValid(l.transactions) && ValidMonthlyFilter(f)
    ensures Rows(l, owner, MonthWindow(f)) == Rows(l, owner, Month(SummaryMonth(f)))
  {
    var ym := SummaryMonth(f);
    forall t | t in l.transactions
      ensures InWindow(MonthWindow(f), t.date) <==> InWindow(Month(ym), t.date)
    {
      HalfOpenMonthWindow(t.date, ym);
    }
    SelectAgrees(l.transactions, l.categories, owner, MonthWindow(f), Month(ym));
  }

  /** The totals are the per-kind sums of the caller's join rows dated in the month
      the window covers. */
  lemma MonthlySummaryTotals(l: Ledger, owner: UserId, f: MonthlyFilter)
    requires DatesValid(l.transactions) && ValidMonthlyFilter(f)
    ensures GetMonthlySummary(l, owner, f).totalIncome == KindTotal(Rows(l, owner, Month(SummaryMonth(f))), Income)
    ensures GetMonthlySummary(l, owner, f).totalExpense == KindTotal(Rows(l, owner, Month(SummaryMonth(f))), Expense)
  {
    MonthWindowIsCalendarMonth(l, owner, f);
  }

  /** A two-digit year asks for a month of the twentieth century: the summary for
      `(24, 1)` echoes year 24 but totals January 1924, and no filter totals a month
      of the years 0 to 99. */
  lemma TwoDigitYearReadsNineteenHundreds(l: Ledger, owner: UserId, f: MonthlyFilter)
    requires DatesValid(l.transactions) && ValidMonthlyFilter(f)
    ensures 0 <= f.year <= 99 ==>
      && GetMonthlySummary(l, owner, f).year == f.year
      && GetMonthlySummary(l, owner, f).totalIncome == KindTotal(Rows(l, owner, Month(YearMonth(1900 + f.year, f.month))), Income)
      && GetMonthlySummary(l, owner, f).totalExpense == KindTotal(Rows(l, owner, Month(YearMonth(1900 + f.year, f.month))), Expense)
    ensures !(0 <= SummaryMonth(f).year <= 99)
  {
    MonthlySummaryTotals(l, owner, f);
  }

  /** A month in which the caller has no transaction gives zero totals, a zero
      balance, and is not overspent. */
  lemma EmptyMonthIsZero(l: Ledger, owner: UserId, f: MonthlyFilter)
    requires ValidMonthlyFilter(f)
    requires forall t :: t in l.transactions && t.owner == owner ==> !InWindow(MonthWindow(f), t.date)
    ensures GetMonthlySummary(l, owner, f) == MonthlySummary(f.year, f.month, 0, 0, 0, false)
  {
  }

  /** Another user's transactions never change the caller's summary. */
  lemma MonthlySummaryIgnoresOthers(l: Ledger, owner: UserId, f: MonthlyFilter, t: Transaction)
    requires ValidMonthlyFilter(f) && t.owner != owner
    ensures GetMonthlySummary(l.(transactions := l.transactions + [t]), owner, f) == GetMonthlySummary(l, owner, f)
  {
    SelectIgnoresOthers(l.transactions, t, l.categories, owner, MonthWindow(f));
  }
}
