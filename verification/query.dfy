/** The shape every read handler shares: `transactions INNER JOIN categories`
    filtered on the caller and a date window, then amounts summed per kind. */
module Query {
  import opened Outcomes
  import opened Dates
  import opened Schema
  import opened Store

  /** The date condition of a query. */
  datatype Window =
    | Everything                       // no date condition
    | Closed(lo: Date, hi: Date)       // gte(lo) and lte(hi)
    | HalfOpen(lo: Date, hi: Date)     // gte(lo) and lt(hi)
    | Month(ym: YearMonth)             // reference: the date's own year and month are ym

  predicate InWindow(w: Window, d: Date) {
    match w
    case Everything => true
    case Closed(lo, hi) => NotAfter(lo, d) && NotAfter(d, hi)
    case HalfOpen(lo, hi) => NotAfter(lo, d) && Precedes(d, hi)
    case Month(ym) => MonthOf(d) == ym
  }

  /** One row of the join: a transaction and the category its `category_id` names. */
  datatype Row = Row(tx: Transaction, category: Category)

  /** The join rows of `owner`'s transactions dated in `w`, in table order.  The join
      is on `category_id` alone: it does not look at the category's owner. */
  function Select(ts: seq<Transaction>, cs: seq<Category>, owner: UserId, w: Window): (rows: seq<Row>)
    ensures |rows| <= |ts|
    ensures forall r :: r in rows <==>
      r.tx in ts && r.tx.owner == owner && InWindow(w, r.tx.date)
      && CategoryById(cs, r.tx.categoryId) == Some(r.category)
  {
    if |ts| == 0 then []
    else
      var rest := Select(ts[1..], cs, owner, w);
      assert forall t :: t in ts <==> t == ts[0] || t in ts[1..];
      match CategoryById(cs, ts[0].categoryId)
      case Some(c) =>
        if ts[0].owner == owner && InWindow(w, ts[0].date) then [Row(ts[0], c)] + rest else rest
      case None => rest
  }

  function Rows(l: Ledger, owner: UserId, w: Window): seq<Row> {
    Select(l.transactions, l.categories, owner, w)
  }

  /** Every transaction of `owner` in the window shows up, provided its category exists. */
  lemma RowsComplete(l: Ledger, owner: UserId, w: Window, t: Transaction)
    requires Valid(l) && t in l.transactions && t.owner == owner && InWindow(w, t.date)
    ensures exists r :: r in Rows(l, owner, w) && r.tx == t
  {
    var c := CategoryById(l.categories, t.categoryId).value;
    assert Row(t, c) in Rows(l, owner, w);
  }

  /** Two windows that agree on every valid day select the same rows from a ledger
      of valid days. */
  lemma {:induction false} SelectAgrees(ts: seq<Transaction>, cs: seq<Category>, owner: UserId, w1: Window, w2: Window)
    requires DatesValid(ts)
    requires forall t :: t in ts ==> (InWindow(w1, t.date) <==> InWindow(w2, t.date))
    ensures Select(ts, cs, owner, w1) == Select(ts, cs, owner, w2)
  {
    if |ts| > 0 {
      assert forall t :: t in ts[1..] ==> t in ts;
      SelectAgrees(ts[1..], cs, owner, w1, w2);
    }
  }

  /** Appending another user's transaction to the table changes no query of `owner`. */
  lemma {:induction false} SelectIgnoresOthers(ts: seq<Transaction>, t: Transaction, cs: seq<Category>, owner: UserId, w: Window)
    requires t.owner != owner
    ensures Select(ts + [t], cs, owner, w) == Select(ts, cs, owner, w)
  {
    if |ts| == 0 {
      assert [t][1..] == [];
    } else {
      assert (ts + [t])[1..] == ts[1..] + [t];
      SelectIgnoresOthers(ts[1..], t, cs, owner, w);
    }
  }

  /** Appending a transaction to the table appends its join row, if it has one, to
      every query that selects it. */
  lemma {:induction false} SelectSnoc(ts: seq<Transaction>, t: Transaction, cs: seq<Category>, owner: UserId, w: Window)
    ensures Select(ts + [t], cs, owner, w) ==
            Select(ts, cs, owner, w)
            + (if t.owner == owner && InWindow(w, t.date) && CategoryById(cs, t.categoryId).Some?
               then [Row(t, CategoryById(cs, t.categoryId).value)] else [])
  {
    if |ts| == 0 {
      assert [t][1..] == [];
    } else {
      assert (ts + [t])[1..] == ts[1..] + [t];
      SelectSnoc(ts[1..], t, cs, owner, w);
    }
  }

  /** A window that ends before it starts selects nothing. */
  lemma InvertedWindowIsEmpty(l: Ledger, owner: UserId, lo: Date, hi: Date)
    requires Precedes(hi, lo)
    ensures Rows(l, owner, Closed(lo, hi)) == []
  {
    var rows := Rows(l, owner, Closed(lo, hi));
    if |rows| > 0 {
      assert rows[0] in rows;
      NotAfterTotalOrder(lo, rows[0].tx.date, hi);
      assert false;
    }
  }

  predicate PositiveAmounts(rows: seq<Row>) {
    forall r :: r in rows ==> r.tx.amount > 0
  }

  lemma RowsPositive(l: Ledger, owner: UserId, w: Window)
    requires AmountsPositive(l.transactions)
    ensures PositiveAmounts(Rows(l, owner, w))
  {
  }

  /** What one row adds to the total of kind `k`. */
  function Contribution(r: Row, k: Kind): Cents {
    if r.category.kind == k then r.tx.amount else 0
  }

  /** Sum of the amounts of the rows whose category is of kind `k`. */
  function KindTotal(rows: seq<Row>, k: Kind): Cents {
    if |rows| == 0 then 0 else KindTotal(rows[..|rows| - 1], k) + Contribution(rows[|rows| - 1], k)
  }

  /** With positive amounts a kind's total is never negative, and it is zero exactly
      when no row of that kind is present. */
  lemma {:induction false} KindTotalBounds(rows: seq<Row>, k: Kind)
    requires PositiveAmounts(rows)
    ensures KindTotal(rows, k) >= 0
    ensures KindTotal(rows, k) == 0 <==> forall r :: r in rows ==> r.category.kind != k
  {
    if |rows| > 0 {
      var front := rows[..|rows| - 1];
      assert forall r :: r in rows <==> r in front || r == rows[|rows| - 1];
      KindTotalBounds(front, k);
    }
  }

  /** Stored amounts being positive, every per-kind total of a query is non-negative. */
  lemma TotalsNonNegative(l: Ledger, owner: UserId, w: Window)
    ensures AmountsPositive(l.transactions) ==>
      KindTotal(Rows(l, owner, w), Income) >= 0 && KindTotal(Rows(l, owner, w), Expense) >= 0
  {
    if AmountsPositive(l.transactions) {
      RowsPositive(l, owner, w);
      KindTotalBounds(Rows(l, owner, w), Income);
      KindTotalBounds(Rows(l, owner, w), Expense);
    }
  }

  /** A (year, month) summary of the given rows: sums per kind, the balance, and
      overspent when the balance is negative. */
  function Summarize(ym: YearMonth, rows: seq<Row>): (s: MonthlySummary)
    ensures s.year == ym.year && s.month == ym.month
    ensures s.balance == s.totalIncome - s.totalExpense
    ensures s.isOverspent <==> s.totalExpense > s.totalIncome
  {
    var income := KindTotal(rows, Income);
    var expense := KindTotal(rows, Expense);
    MonthlySummary(ym.year, ym.month, income, expense, income - expense, income - expense < 0)
  }
}
