/** `getDashboardData`: this month's summary, the ten newest transactions, six
    months of income and expense, and the five largest categories this month.
    The clock reading `new Date()` is the parameter `today`. */
module DashboardHandler {
  import opened Dates
  import opened Schema
  import opened Store
  import opened Query
  import opened CategoryRollup
  import opened Ranking
  import MonthlySummaryHandler

  const RecentLimit: nat := 10
  const ComparisonMonths: nat := 6
  const TopLimit: nat := 5

  /** From the first to the last day of the month, both included. */
  function WholeMonth(ym: YearMonth): Window
    requires ValidMonth(ym.month)
  {
    Closed(FirstDay(ym), LastDay(ym))
  }

  /** The month of `new Date(currentYear, currentMonth - 1, 1)`.  Its first and
      last days bound the current-month queries.  A clock year from 0 to 99 is read
      as 1900 to 1999 there. */
  function ClockMonth(today: Date): (ym: YearMonth)
    requires ValidDate(today)
    ensures ym == YearMonth(ConstructorYear(today.year), today.month)
    ensures ym.year == today.year <==> today.year < 0 || today.year >= 100
  {
    ConstructedMonthInRange(today.year, today.month);
    ConstructedMonth(today.year, today.month - 1)
  }

  function CreatedKey(r: Row): int {
    r.tx.createdAt
  }

  function TotalKey(e: CategoryReport): int {
    e.totalAmount
  }

  function Annotate(r: Row): RecentTransaction {
    RecentTransaction(r.tx, r.category.name, r.category.kind)
  }

  function AnnotateAll(rows: seq<Row>): (out: seq<RecentTransaction>)
    ensures |out| == |rows|
    ensures forall i :: 0 <= i < |rows| ==> out[i] == Annotate(rows[i])
  {
    if |rows| == 0 then [] else [Annotate(rows[0])] + AnnotateAll(rows[1..])
  }

  /** Income and expense of the caller in one whole month, labelled `ym`.  The bounds
      are rebuilt from `ym` with `new Date(targetYear, targetMonth - 1, 1)`, so they
      cover the month `ConstructedMonth(ym.year, ym.month - 1)`. */
  function Compare(l: Ledger, owner: UserId, ym: YearMonth): (c: MonthComparison)
    requires ValidMonth(ym.month)
    ensures c.month == ym
    ensures AmountsPositive(l.transactions) ==> c.income >= 0 && c.expense >= 0
  {
    var w := WholeMonth(ConstructedMonth(ym.year, ym.month - 1));
    TotalsNonNegative(l, owner, w);
    MonthComparison(ym, KindTotal(Rows(l, owner, w), Income), KindTotal(Rows(l, owner, w), Expense))
  }

  /** The month of comparison entry `j`: `new Date(currentYear, currentMonth - 1 - i, 1)`
      with `i = 5 - j`, that is `5 - j` months before the clock's. */
  function TargetMonth(today: Date, j: int): (ym: YearMonth)
    requires ValidDate(today)
    ensures ValidMonth(ym.month)
    ensures MonthIndex(ym) == MonthIndex(ClockMonth(today)) - 5 + j
  {
    ConstructedMonth(today.year, today.month - 6 + j)
  }

  /** The six months ending with the clock's, oldest first, each present even when empty. */
  function Comparison(l: Ledger, owner: UserId, today: Date): (cs: seq<MonthComparison>)
    requires ValidDate(today)
    ensures |cs| == ComparisonMonths
    ensures forall j :: 0 <= j < |cs| ==> ValidMonth(cs[j].month.month) && MonthIndex(cs[j].month) == MonthIndex(ClockMonth(today)) - 5 + j
    ensures cs[|cs| - 1].month == ClockMonth(today)
    ensures AmountsPositive(l.transactions) ==> forall j :: 0 <= j < |cs| ==> cs[j].income >= 0 && cs[j].expense >= 0
  {
    var cs := seq(ComparisonMonths, j requires 0 <= j < ComparisonMonths => Compare(l, owner, TargetMonth(today, j)));
    MonthIndexInjective(cs[5].month, ClockMonth(today));
    cs
  }

  /** This month's income, expense and balance, from the 1st to the last day of the
      clock's month; the result echoes the clock's year and month. */
  function CurrentMonthSummary(l: Ledger, owner: UserId, today: Date): (s: MonthlySummary)
    requires ValidDate(today)
    ensures s.year == today.year && s.month == today.month
    ensures s.balance == s.totalIncome - s.totalExpense
    ensures s.isOverspent <==> s.balance < 0
    ensures AmountsPositive(l.transactions) ==> s.totalIncome >= 0 && s.totalExpense >= 0
  {
    TotalsNonNegative(l, owner, WholeMonth(ClockMonth(today)));
    Summarize(MonthOf(today), Rows(l, owner, WholeMonth(ClockMonth(today))))
  }

  /** The caller's newest transactions by creation time: at most ten, newest first,
      each with its category's name and kind, and each a distinct join row of the
      caller (a row is listed at most as often as the join yields it). */
  function RecentTransactions(l: Ledger, owner: UserId): (recent: seq<RecentTransaction>)
    ensures |recent| == Min(RecentLimit, |Rows(l, owner, Everything)|)
    ensures forall i, j :: 0 <= i < j < |recent| ==> recent[i].tx.createdAt >= recent[j].tx.createdAt
    ensures forall i :: 0 <= i < |recent| ==> recent[i].tx in l.transactions && recent[i].tx.owner == owner
    ensures exists kept :: multiset(kept) <= multiset(Rows(l, owner, Everything)) && recent == AnnotateAll(kept)
  {
    var rows := Rows(l, owner, Everything);
    NewestOf(rows);
    AnnotateAll(Top(rows, CreatedKey, RecentLimit))
  }

  /** The annotated newest rows of `rows`, newest first, each taken from `rows`. */
  lemma NewestOf(rows: seq<Row>)
    ensures var recent := AnnotateAll(Top(rows, CreatedKey, RecentLimit));
            && (forall i, j :: 0 <= i < j < |recent| ==> recent[i].tx.createdAt >= recent[j].tx.createdAt)
            && (forall i :: 0 <= i < |recent| ==> exists r :: r in rows && r.tx == recent[i].tx)
            && exists part :: multiset(part) <= multiset(rows) && recent == AnnotateAll(part)
  {
    var kept := Top(rows, CreatedKey, RecentLimit);
    var recent := AnnotateAll(kept);
    forall i, j | 0 <= i < j < |recent|
      ensures recent[i].tx.createdAt >= recent[j].tx.createdAt
    {
      assert CreatedKey(kept[i]) >= CreatedKey(kept[j]);
    }
    forall i | 0 <= i < |recent|
      ensures exists r :: r in rows && r.tx == recent[i].tx
    {
      assert kept[i] in kept;
    }
  }

  /** The five categories with the largest totals this month, largest first. */
  function TopCategories(l: Ledger, owner: UserId, today: Date): (top: seq<CategoryReport>)
    requires ValidDate(today)
    ensures |top| == Min(TopLimit, |Rollup(Rows(l, owner, WholeMonth(ClockMonth(today))))|)
    ensures SortedDesc(top, TotalKey)
    ensures multiset(top) <= multiset(Rollup(Rows(l, owner, WholeMonth(ClockMonth(today)))))
  {
    Top(Rollup(Rows(l, owner, WholeMonth(ClockMonth(today)))), TotalKey, TopLimit)
  }

  function GetDashboardData(l: Ledger, owner: UserId, today: Date): (d: DashboardData)
    requires ValidDate(today)
    ensures d.currentMonthSummary.year == today.year && d.currentMonthSummary.month == today.month
    ensures d.currentMonthSummary.balance == d.currentMonthSummary.totalIncome - d.currentMonthSummary.totalExpense
    ensures d.currentMonthSummary.isOverspent <==> d.currentMonthSummary.balance < 0
    ensures |d.recentTransactions| <= RecentLimit
    ensures |d.monthlyComparison| == ComparisonMonths
    ensures d.monthlyComparison[ComparisonMonths - 1].month == ClockMonth(today)
    ensures |d.topCategories| <= TopLimit
    ensures SortedDesc(d.topCategories, TotalKey)
  {
    DashboardData(CurrentMonthSummary(l, owner, today), RecentTransactions(l, owner),
                  Comparison(l, owner, today), TopCategories(l, owner, today))
  }

  /** On calendar days, the dashboard's closed first-to-last-day window and the
      monthly summary's half-open window coincide: the current-month summary is
      `getMonthlySummary` for today's year and month. */
  lemma DashboardMonthIsMonthlySummary(l: Ledger, owner: UserId, today: Date)
    requires DatesValid(l.transactions) && ValidDate(today)
    ensures CurrentMonthSummary(l, owner, today)
            == MonthlySummaryHandler.GetMonthlySummary(l, owner, MonthlyFilter(today.year, today.month))
  {
    var f := MonthlyFilter(today.year, today.month);
    assert ClockMonth(today) == MonthlySummaryHandler.SummaryMonth(f);
    WholeMonthIsCalendarMonth(l, owner, ClockMonth(today));
    MonthlySummaryHandler.MonthWindowIsCalendarMonth(l, owner, f);
  }

  lemma WholeMonthIsCalendarMonth(l: Ledger, owner: UserId, ym: YearMonth)
    requires DatesValid(l.transactions) && ValidMonth(ym.month)
    ensures Rows(l, owner, WholeMonth(ym)) == Rows(l, owner, Month(ym))
  {
    forall t | t in l.transactions
      ensures InWindow(WholeMonth(ym), t.date) <==> InWindow(Month(ym), t.date)
    {
      ClosedMonthWindow(t.date, ym);
    }
    SelectAgrees(l.transactions, l.categories, owner, WholeMonth(ym), Month(ym));
  }

  /** Each comparison entry is the monthly summary of the month it is labelled with:
      entry `j` is labelled with the month `5 - j` months before the clock's, wrapping
      across year boundaries. */
  lemma ComparisonIsMonthlySummaries(l: Ledger, owner: UserId, today: Date, j: int)
    requires DatesValid(l.transactions) && ValidDate(today) && 0 <= j < ComparisonMonths
    ensures var ym := TargetMonth(today, j);
            var s := MonthlySummaryHandler.GetMonthlySummary(l, owner, MonthlyFilter(ym.year, ym.month));
            Comparison(l, owner, today)[j] == MonthComparison(ym, s.totalIncome, s.totalExpense)
  {
    var ym := TargetMonth(today, j);
    var f := MonthlyFilter(ym.year, ym.month);
    assert Comparison(l, owner, today)[j] == Compare(l, owner, ym);
    ConstructedMonthInRange(ym.year, ym.month);
    assert ConstructedMonth(ym.year, ym.month - 1) == MonthlySummaryHandler.SummaryMonth(f);
    WholeMonthIsCalendarMonth(l, owner, ConstructedMonth(ym.year, ym.month - 1));
    MonthlySummaryHandler.MonthWindowIsCalendarMonth(l, owner, f);
  }

  /** No caller transaction left out of the recent list is newer than one in it. */
  lemma RecentAreNewest(l: Ledger, owner: UserId)
    ensures forall r, x :: (r in Rows(l, owner, Everything) && Annotate(r) !in RecentTransactions(l, owner)
                            && x in RecentTransactions(l, owner)) ==> x.tx.createdAt >= r.tx.createdAt
  {
    var rows := Rows(l, owner, Everything);
    var kept := Top(rows, CreatedKey, RecentLimit);
    var recent := AnnotateAll(kept);
    forall r, x | r in rows && Annotate(r) !in recent && x in recent
      ensures x.tx.createdAt >= r.tx.createdAt
    {
      assert r in multiset(rows) - multiset(kept);
      var i :| 0 <= i < |recent| && recent[i] == x;
      assert kept[i] in kept;
    }
  }

  /** Every recent transaction is annotated with the name and kind of the stored
      category its `category_id` names. */
  lemma RecentCarryOwnCategory(l: Ledger, owner: UserId)
    ensures forall x :: x in RecentTransactions(l, owner) ==>
      exists c :: c in l.categories && c.id == x.tx.categoryId && c.name == x.categoryName && c.kind == x.categoryKind
  {
    var kept := Top(Rows(l, owner, Everything), CreatedKey, RecentLimit);
    var recent := AnnotateAll(kept);
    forall x | x in recent
      ensures exists c :: c in l.categories && c.id == x.tx.categoryId && c.name == x.categoryName && c.kind == x.categoryKind
    {
      var i :| 0 <= i < |recent| && recent[i] == x;
      assert kept[i] in multiset(kept);
      assert kept[i] in Rows(l, owner, Everything);
    }
  }

  /** Each top category is a line of this month's rollup: its total and count are
      the sum and number of the caller's rows of that category this month, and no
      category left out has a larger total. */
  lemma TopCategoriesAreMonthLines(l: Ledger, owner: UserId, today: Date, e: CategoryReport)
    requires ValidDate(today)
    requires e in TopCategories(l, owner, today)
    ensures var rows := Rows(l, owner, WholeMonth(ClockMonth(today)));
            && e.totalAmount == GroupTotal(rows, KeyOfReport(e))
            && e.transactionCount == GroupCount(rows, KeyOfReport(e))
            && e.transactionCount >= 1
            && (forall x :: x in multiset(Rollup(rows)) - multiset(TopCategories(l, owner, today)) ==>
                  e.totalAmount >= x.totalAmount)
  {
    var rows := Rows(l, owner, WholeMonth(ClockMonth(today)));
    RollupMember(rows, e);
  }

  /** With no transactions the dashboard is all zeros: a zero, not overspent summary,
      no recent transactions, six empty months and no top categories. */
  lemma EmptyLedgerDashboard(l: Ledger, owner: UserId, today: Date)
    requires ValidDate(today) && l.transactions == []
    ensures var d := GetDashboardData(l, owner, today);
            && d.currentMonthSummary == MonthlySummary(today.year, today.month, 0, 0, 0, false)
            && d.recentTransactions == [] && d.topCategories == []
            && forall j :: 0 <= j < |d.monthlyComparison| ==> d.monthlyComparison[j].income == 0 && d.monthlyComparison[j].expense == 0
  {
    var d := GetDashboardData(l, owner, today);
    forall j | 0 <= j < |d.monthlyComparison|
      ensures d.monthlyComparison[j].income == 0 && d.monthlyComparison[j].expense == 0
    {
      var ym := TargetMonth(today, j);
      assert d.monthlyComparison[j] == Compare(l, owner, ym);
    }
  }

  lemma CompareIgnoresOthers(l: Ledger, owner: UserId, ym: YearMonth, t: Transaction)
    requires ValidMonth(ym.month) && t.owner != owner
    ensures Compare(l.(transactions := l.transactions + [t]), owner, ym) == Compare(l, owner, ym)
  {
    var w := WholeMonth(ConstructedMonth(ym.year, ym.month - 1));
    SelectIgnoresOthers(l.transactions, t, l.categories, owner, w);
    CompareSameRows(l.(transactions := l.transactions + [t]), l, owner, ym);
  }

  /** `Compare` reads a ledger only through the rows of its window. */
  lemma CompareSameRows(l1: Ledger, l2: Ledger, owner: UserId, ym: YearMonth)
    requires ValidMonth(ym.month)
    requires Rows(l1, owner, WholeMonth(ConstructedMonth(ym.year, ym.month - 1)))
             == Rows(l2, owner, WholeMonth(ConstructedMonth(ym.year, ym.month - 1)))
    ensures Compare(l1, owner, ym) == Compare(l2, owner, ym)
  {
  }

  lemma ComparisonIgnoresOthers(l: Ledger, owner: UserId, today: Date, t: Transaction)
    requires ValidDate(today) && t.owner != owner
    ensures Comparison(l.(transactions := l.transactions + [t]), owner, today) == Comparison(l, owner, today)
  {
    var l' := l.(transactions := l.transactions + [t]);
    forall j | 0 <= j < ComparisonMonths
      ensures Comparison(l', owner, today)[j] == Comparison(l, owner, today)[j]
    {
      var ym := TargetMonth(today, j);
      assert Comparison(l', owner, today)[j] == Compare(l', owner, ym);
      assert Comparison(l, owner, today)[j] == Compare(l, owner, ym);
      CompareIgnoresOthers(l, owner, ym, t);
    }
  }

  /** Another user's transactions never change the caller's dashboard. */
  lemma DashboardIgnoresOthers(l: Ledger, owner: UserId, today: Date, t: Transaction)
    requires ValidDate(today) && t.owner != owner
    ensures GetDashboardData(l.(transactions := l.transactions + [t]), owner, today) == GetDashboardData(l, owner, today)
  {
    var l' := l.(transactions := l.transactions + [t]);
    var month := WholeMonth(ClockMonth(today));
    SelectIgnoresOthers(l.transactions, t, l.categories, owner, month);
    SelectIgnoresOthers(l.transactions, t, l.categories, owner, Everything);
    assert CurrentMonthSummary(l', owner, today) == CurrentMonthSummary(l, owner, today);
    assert RecentTransactions(l', owner) == RecentTransactions(l, owner);
    assert TopCategories(l', owner, today) == TopCategories(l, owner, today);
    ComparisonIgnoresOthers(l, owner, today, t);
  }
}
