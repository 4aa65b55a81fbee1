/** The report's month-by-month breakdown: join rows grouped by the (year, month)
    of their date, one summary per month that has rows, months ascending. */
module Breakdown {
  import opened Dates
  import opened Schema
  import opened Query

  function KeyOf(e: MonthlySummary): YearMonth {
    YearMonth(e.year, e.month)
  }

  function RowMonth(r: Row): YearMonth {
    MonthOf(r.tx.date)
  }

  /** Strict (year, month) order. */
  predicate YmBefore(a: YearMonth, b: YearMonth) {
    a.year < b.year || (a.year == b.year && a.month < b.month)
  }

  predicate Ascending(es: seq<MonthlySummary>) {
    forall i, j :: 0 <= i < j < |es| ==> YmBefore(KeyOf(es[i]), KeyOf(es[j]))
  }

  /** The `ORDER BY year, month` of the breakdown query is month-index order: among
      valid months, the entries ascend exactly when their month indexes increase. */
  lemma AscendingByIndex(es: seq<MonthlySummary>)
    requires forall i :: 0 <= i < |es| ==> ValidMonth(es[i].month)
    ensures Ascending(es) <==>
            forall i, j :: 0 <= i < j < |es| ==> MonthIndex(KeyOf(es[i])) < MonthIndex(KeyOf(es[j]))
  {
    forall i, j | 0 <= i < j < |es|
      ensures YmBefore(KeyOf(es[i]), KeyOf(es[j])) <==> MonthIndex(KeyOf(es[i])) < MonthIndex(KeyOf(es[j]))
    {
      MonthIndexOrder(KeyOf(es[i]), KeyOf(es[j]));
    }
  }

  predicate HasMonth(es: seq<MonthlySummary>, ym: YearMonth) {
    exists i :: 0 <= i < |es| && KeyOf(es[i]) == ym
  }

  /** A month's entry with the given totals: the balance is their difference, and
      the month is overspent when expense exceeds income. */
  function Entry(ym: YearMonth, income: Cents, expense: Cents): (e: MonthlySummary)
    ensures KeyOf(e) == ym && e.totalIncome == income && e.totalExpense == expense
    ensures e.balance == income - expense
    ensures e.isOverspent <==> expense > income
  {
    MonthlySummary(ym.year, ym.month, income, expense, income - expense, expense > income)
  }

  /** A row's amount goes to income when its category is income, else to expense. */
  function Credit(e: MonthlySummary, r: Row): MonthlySummary {
    if r.category.kind == Income then Entry(KeyOf(e), e.totalIncome + r.tx.amount, e.totalExpense)
    else Entry(KeyOf(e), e.totalIncome, e.totalExpense + r.tx.amount)
  }

  /** Adds one row to the ascending month list: into its month's entry, or as a
      new entry at the place its month belongs. */
  function AddRow(es: seq<MonthlySummary>, r: Row): seq<MonthlySummary> {
    var ym := RowMonth(r);
    if |es| == 0 then [Credit(Entry(ym, 0, 0), r)]
    else if YmBefore(ym, KeyOf(es[0])) then [Credit(Entry(ym, 0, 0), r)] + es
    else if KeyOf(es[0]) == ym then [Credit(es[0], r)] + es[1..]
    else [es[0]] + AddRow(es[1..], r)
  }

  // Sums over the entries.

  function MonthIncome(es: seq<MonthlySummary>, ym: YearMonth): Cents {
    if |es| == 0 then 0 else (if KeyOf(es[0]) == ym then es[0].totalIncome else 0) + MonthIncome(es[1..], ym)
  }

  function MonthExpense(es: seq<MonthlySummary>, ym: YearMonth): Cents {
    if |es| == 0 then 0 else (if KeyOf(es[0]) == ym then es[0].totalExpense else 0) + MonthExpense(es[1..], ym)
  }

  function IncomeSum(es: seq<MonthlySummary>): Cents {
    if |es| == 0 then 0 else es[0].totalIncome + IncomeSum(es[1..])
  }

  function ExpenseSum(es: seq<MonthlySummary>): Cents {
    if |es| == 0 then 0 else es[0].totalExpense + ExpenseSum(es[1..])
  }

  /** Reference: the kind-`k` total of the rows dated in month `ym`. */
  function MonthKindTotal(rows: seq<Row>, ym: YearMonth, k: Kind): Cents {
    if |rows| == 0 then 0
    else MonthKindTotal(rows[..|rows| - 1], ym, k)
         + (if RowMonth(rows[|rows| - 1]) == ym then Contribution(rows[|rows| - 1], k) else 0)
  }

  lemma HasMonthCons(x: MonthlySummary, s: seq<MonthlySummary>, ym: YearMonth)
    ensures HasMonth([x] + s, ym) <==> KeyOf(x) == ym || HasMonth(s, ym)
  {
    assert ([x] + s)[0] == x;
    if HasMonth(s, ym) {
      var i :| 0 <= i < |s| && KeyOf(s[i]) == ym;
      assert ([x] + s)[i + 1] == s[i];
    }
    if HasMonth([x] + s, ym) && KeyOf(x) != ym {
      var i :| 0 <= i < |[x] + s| && KeyOf(([x] + s)[i]) == ym;
      assert s[i - 1] == ([x] + s)[i];
    }
  }

  /** Adding a row creates its month if missing and no other month. */
  lemma {:induction false} AddRowMonths(es: seq<MonthlySummary>, r: Row, ym: YearMonth)
    ensures HasMonth(AddRow(es, r), ym) <==> HasMonth(es, ym) || ym == RowMonth(r)
  {
    var res := AddRow(es, r);
    if |es| == 0 {
      assert res == [res[0]] + [];
      HasMonthCons(res[0], [], ym);
    } else {
      assert es == [es[0]] + es[1..];
      HasMonthCons(es[0], es[1..], ym);
      if YmBefore(RowMonth(r), KeyOf(es[0])) {
        HasMonthCons(res[0], es, ym);
      } else if KeyOf(es[0]) == RowMonth(r) {
        HasMonthCons(res[0], es[1..], ym);
      } else {
        AddRowMonths(es[1..], r, ym);
        HasMonthCons(es[0], AddRow(es[1..], r), ym);
      }
    }
  }

  lemma AscendingCons(x: MonthlySummary, s: seq<MonthlySummary>)
    requires Ascending(s)
    requires forall i :: 0 <= i < |s| ==> YmBefore(KeyOf(x), KeyOf(s[i]))
    ensures Ascending([x] + s)
  {
    assert forall i :: 0 < i <= |s| ==> ([x] + s)[i] == s[i - 1];
  }

  /** Adding a row keeps the months strictly ascending. */
  lemma {:induction false} AddRowAscending(es: seq<MonthlySummary>, r: Row)
    requires Ascending(es)
    ensures Ascending(AddRow(es, r))
  {
    if |es| > 0 {
      var ym := RowMonth(r);
      var tail := es[1..];
      assert forall i :: 0 <= i < |tail| ==> tail[i] == es[i + 1];
      if YmBefore(ym, KeyOf(es[0])) {
        AscendingCons(AddRow(es, r)[0], es);
      } else if KeyOf(es[0]) == ym {
        AscendingCons(AddRow(es, r)[0], tail);
      } else {
        AddRowAscending(tail, r);
        var rest := AddRow(tail, r);
        forall i | 0 <= i < |rest|
          ensures YmBefore(KeyOf(es[0]), KeyOf(rest[i]))
        {
          AddRowMonths(tail, r, KeyOf(rest[i]));
          assert HasMonth(rest, KeyOf(rest[i]));
        }
        AscendingCons(es[0], rest);
      }
    }
  }

  /** Adding a row adds its amount to its own month's income or expense only, and
      to the overall income or expense sum. */
  lemma {:induction false} AddRowSums(es: seq<MonthlySummary>, r: Row, ym: YearMonth)
    ensures MonthIncome(AddRow(es, r), ym) == MonthIncome(es, ym) + (if ym == RowMonth(r) then Contribution(r, Income) else 0)
    ensures MonthExpense(AddRow(es, r), ym) == MonthExpense(es, ym) + (if ym == RowMonth(r) then Contribution(r, Expense) else 0)
    ensures IncomeSum(AddRow(es, r)) == IncomeSum(es) + Contribution(r, Income)
    ensures ExpenseSum(AddRow(es, r)) == ExpenseSum(es) + Contribution(r, Expense)
  {
    if |es| > 0 && !YmBefore(RowMonth(r), KeyOf(es[0])) && KeyOf(es[0]) != RowMonth(r) {
      AddRowSums(es[1..], r, ym);
    }
  }

  /** Folds the rows, in order, into the month list. */
  function Accumulate(rows: seq<Row>): seq<MonthlySummary> {
    if |rows| == 0 then [] else AddRow(Accumulate(rows[..|rows| - 1]), rows[|rows| - 1])
  }

  /** The monthly breakdown of a set of join rows. */
  function MonthlyBreakdown(rows: seq<Row>): (es: seq<MonthlySummary>)
    ensures forall i :: 0 <= i < |es| ==> es[i].balance == es[i].totalIncome - es[i].totalExpense
    ensures forall i :: 0 <= i < |es| ==> (es[i].isOverspent <==> es[i].totalExpense > es[i].totalIncome)
    ensures |rows| == 0 ==> es == []
  {
    AccumulateShape(rows);
    Accumulate(rows)
  }

  /** Every entry the fold builds comes out of `Entry`. */
  predicate WellShaped(es: seq<MonthlySummary>) {
    forall i :: 0 <= i < |es| ==> es[i] == Entry(KeyOf(es[i]), es[i].totalIncome, es[i].totalExpense)
  }

  lemma {:induction false} AddRowShape(es: seq<MonthlySummary>, r: Row)
    requires WellShaped(es)
    ensures WellShaped(AddRow(es, r))
  {
    if |es| > 0 {
      var tail := es[1..];
      assert forall i :: 0 <= i < |tail| ==> tail[i] == es[i + 1];
      if !YmBefore(RowMonth(r), KeyOf(es[0])) && KeyOf(es[0]) != RowMonth(r) {
        AddRowShape(tail, r);
        var res := AddRow(es, r);
        assert forall i :: 0 < i < |res| ==> res[i] == AddRow(tail, r)[i - 1];
      }
    }
  }

  lemma {:induction false} AccumulateShape(rows: seq<Row>)
    ensures WellShaped(Accumulate(rows))
  {
    if |rows| > 0 {
      AccumulateShape(rows[..|rows| - 1]);
      AddRowShape(Accumulate(rows[..|rows| - 1]), rows[|rows| - 1]);
    }
  }

  /** The breakdown lists a month exactly when some row is dated in it, and each
      month's totals are that month's per-kind sums. */
  lemma {:induction false} BreakdownCorrect(rows: seq<Row>, ym: YearMonth)
    ensures HasMonth(MonthlyBreakdown(rows), ym) <==> exists r :: r in rows && RowMonth(r) == ym
    ensures MonthIncome(MonthlyBreakdown(rows), ym) == MonthKindTotal(rows, ym, Income)
    ensures MonthExpense(MonthlyBreakdown(rows), ym) == MonthKindTotal(rows, ym, Expense)
  {
    if |rows| > 0 {
      var front := rows[..|rows| - 1];
      var last := rows[|rows| - 1];
      BreakdownCorrect(front, ym);
      AddRowMonths(Accumulate(front), last, ym);
      AddRowSums(Accumulate(front), last, ym);
      assert forall r :: r in rows <==> r in front || r == last;
    }
  }

  /** The months are strictly ascending, and the entries together add up to the
      per-kind totals of all rows. */
  lemma {:induction false} BreakdownSums(rows: seq<Row>)
    ensures Ascending(MonthlyBreakdown(rows))
    ensures IncomeSum(MonthlyBreakdown(rows)) == KindTotal(rows, Income)
    ensures ExpenseSum(MonthlyBreakdown(rows)) == KindTotal(rows, Expense)
  {
    if |rows| > 0 {
      var front := rows[..|rows| - 1];
      var last := rows[|rows| - 1];
      BreakdownSums(front);
      AddRowAscending(Accumulate(front), last);
      AddRowSums(Accumulate(front), last, RowMonth(last));
    }
  }

  lemma {:induction false} MonthZeroWithout(es: seq<MonthlySummary>, ym: YearMonth)
    requires !HasMonth(es, ym)
    ensures MonthIncome(es, ym) == 0 && MonthExpense(es, ym) == 0
  {
    if |es| > 0 {
      HasMonthCons(es[0], es[1..], ym);
      assert es == [es[0]] + es[1..];
      MonthZeroWithout(es[1..], ym);
    }
  }

  lemma {:induction false} EntryOfAscending(es: seq<MonthlySummary>, i: int)
    requires Ascending(es) && 0 <= i < |es|
    ensures MonthIncome(es, KeyOf(es[i])) == es[i].totalIncome
    ensures MonthExpense(es, KeyOf(es[i])) == es[i].totalExpense
  {
    var tail := es[1..];
    assert forall j :: 0 <= j < |tail| ==> tail[j] == es[j + 1];
    if i == 0 {
      assert !HasMonth(tail, KeyOf(es[0]));
      MonthZeroWithout(tail, KeyOf(es[0]));
    } else {
      EntryOfAscending(tail, i - 1);
    }
  }

  /** Each entry of the breakdown sums exactly the rows of its own month. */
  lemma BreakdownEntry(rows: seq<Row>, i: int)
    requires 0 <= i < |MonthlyBreakdown(rows)|
    ensures MonthlyBreakdown(rows)[i].totalIncome == MonthKindTotal(rows, KeyOf(MonthlyBreakdown(rows)[i]), Income)
    ensures MonthlyBreakdown(rows)[i].totalExpense == MonthKindTotal(rows, KeyOf(MonthlyBreakdown(rows)[i]), Expense)
    ensures exists r :: r in rows && RowMonth(r) == KeyOf(MonthlyBreakdown(rows)[i])
  {
    var es := MonthlyBreakdown(rows);
    BreakdownCorrect(rows, KeyOf(es[i]));
    BreakdownSums(rows);
    EntryOfAscending(es, i);
    assert HasMonth(es, KeyOf(es[i]));
  }
}
