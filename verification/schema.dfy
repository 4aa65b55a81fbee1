/** Records and input validity rules of the server schema.  The input predicates are
    what the request validator guarantees before a handler runs; the handlers take
    them as preconditions. */
module Schema {
  import opened Outcomes
  import opened Dates

  type UserId = nat
  type CategoryId = nat
  type TransactionId = nat

  /** Milliseconds since the epoch; the store's `created_at` / `updated_at` stamps. */
  type Timestamp = int

  /** Money in integer cents (the column is `numeric(15,2)`). */
  type Cents = int

  /** `numeric(15,2)` keeps 13 digits before the point: an amount must stay below
      10^13 units, that is 10^15 cents. */
  const AmountLimit: Cents := 1_000_000_000_000_000

  datatype Kind = Income | Expense

  datatype PeriodType = Custom | Monthly | Quarterly | Yearly

  datatype ExportFormat = Pdf | Excel

  datatype Category = Category(
    id: CategoryId,
    owner: UserId,
    name: string,
    kind: Kind,
    color: Option<string>,
    createdAt: Timestamp)

  datatype Transaction = Transaction(
    id: TransactionId,
    owner: UserId,
    categoryId: CategoryId,
    amount: Cents,
    description: Option<string>,
    date: Date,
    createdAt: Timestamp,
    updatedAt: Timestamp)

  /** A field of a partial update: left as it is, or set to a new value. */
  datatype Patch<+T> = Keep | Set(value: T)

  datatype RegisterInput = RegisterInput(email: string, password: string, name: string)

  datatype ChangePasswordInput = ChangePasswordInput(currentPassword: string, newPassword: string)

  /** `color` absent and `color: null` are both `None`: the handler stores null for both. */
  datatype CreateCategoryInput = CreateCategoryInput(name: string, kind: Kind, color: Option<string>)

  datatype UpdateCategoryInput = UpdateCategoryInput(id: CategoryId, name: Patch<string>, color: Patch<Option<string>>)

  /** `transactionDate` is the raw request string, expected as `YYYY-MM-DD`. */
  datatype CreateTransactionInput = CreateTransactionInput(
    categoryId: CategoryId,
    amount: Cents,
    description: Option<string>,
    transactionDate: string)

  datatype UpdateTransactionInput = UpdateTransactionInput(
    id: TransactionId,
    categoryId: Patch<CategoryId>,
    amount: Patch<Cents>,
    description: Patch<Option<string>>,
    transactionDate: Patch<string>)

  /** Dates are the raw request strings; the handlers read them as calendar days. */
  datatype DateRangeFilter = DateRangeFilter(startDate: string, endDate: string, periodType: Option<PeriodType>)

  datatype MonthlyFilter = MonthlyFilter(year: int, month: int)

  // Input validity, as the request schema checks it.

  predicate ValidRegisterInput(i: RegisterInput) {
    |i.password| >= 6 && |i.name| >= 1
  }

  predicate ValidChangePasswordInput(i: ChangePasswordInput) {
    |i.newPassword| >= 6
  }

  predicate ValidCreateCategoryInput(i: CreateCategoryInput) {
    |i.name| >= 1
  }

  predicate ValidUpdateCategoryInput(i: UpdateCategoryInput) {
    i.name.Set? ==> |i.name.value| >= 1
  }

  predicate ValidCreateTransactionInput(i: CreateTransactionInput) {
    i.amount > 0
  }

  predicate ValidUpdateTransactionInput(i: UpdateTransactionInput) {
    i.amount.Set? ==> i.amount.value > 0
  }

  /** The month is 1..12; the year is unconstrained. */
  predicate ValidMonthlyFilter(f: MonthlyFilter) {
    ValidMonth(f.month)
  }

  // Derived result records.

  datatype MonthlySummary = MonthlySummary(
    year: int,
    month: int,
    totalIncome: Cents,
    totalExpense: Cents,
    balance: Cents,
    isOverspent: bool)

  datatype CategoryReport = CategoryReport(
    categoryId: CategoryId,
    categoryName: string,
    categoryKind: Kind,
    totalAmount: Cents,
    transactionCount: nat)

  datatype Period = Period(startDate: string, endDate: string, periodType: PeriodType)

  datatype Totals = Totals(totalIncome: Cents, totalExpense: Cents, balance: Cents)

  datatype FinancialReport = FinancialReport(
    period: Period,
    summary: Totals,
    categories: seq<CategoryReport>,
    monthlyBreakdown: seq<MonthlySummary>)

  /** One month of the dashboard chart; the locale label is replaced by (year, month). */
  datatype MonthComparison = MonthComparison(month: YearMonth, income: Cents, expense: Cents)

  /** A transaction with its category's name and kind, as the dashboard lists it. */
  datatype RecentTransaction = RecentTransaction(tx: Transaction, categoryName: string, categoryKind: Kind)

  datatype DashboardData = DashboardData(
    currentMonthSummary: MonthlySummary,
    recentTransactions: seq<RecentTransaction>,
    monthlyComparison: seq<MonthComparison>,
    topCategories: seq<CategoryReport>)
}
