/** The category rollup: `GROUP BY categories.id, categories.name, categories.type`
    with `sum(amount)` and `count(id)` per group. */
module CategoryRollup {
  import opened Schema
  import opened Query

  /** The columns a rollup groups on. */
  datatype GroupKey = GroupKey(id: CategoryId, name: string, kind: Kind)

  function KeyOfRow(r: Row): GroupKey {
    GroupKey(r.category.id, r.category.name, r.category.kind)
  }

  function KeyOfReport(e: CategoryReport): GroupKey {
    GroupKey(e.categoryId, e.categoryName, e.categoryKind)
  }

  // Reference sums over the rows, one group at a time.

  function GroupTotal(rows: seq<Row>, g: GroupKey): Cents {
    if |rows| == 0 then 0
    else GroupTotal(rows[..|rows| - 1], g) + (if KeyOfRow(rows[|rows| - 1]) == g then rows[|rows| - 1].tx.amount else 0)
  }

  function GroupCount(rows: seq<Row>, g: GroupKey): nat {
    if |rows| == 0 then 0
    else GroupCount(rows[..|rows| - 1], g) + (if KeyOfRow(rows[|rows| - 1]) == g then 1 else 0)
  }

  // Sums over the report lines.

  /** Total of the lines for group `g` (there is at most one). */
  function LineTotal(es: seq<CategoryReport>, g: GroupKey): Cents {
    if |es| == 0 then 0 else (if KeyOfReport(es[0]) == g then es[0].totalAmount else 0) + LineTotal(es[1..], g)
  }

  function LineCount(es: seq<CategoryReport>, g: GroupKey): int {
    if |es| == 0 then 0 else (if KeyOfReport(es[0]) == g then es[0].transactionCount else 0) + LineCount(es[1..], g)
  }

  /** Sum of the line totals whose category is of kind `k`: the report summary. */
  function KindSum(es: seq<CategoryReport>, k: Kind): Cents {
    if |es| == 0 then 0 else (if es[0].categoryKind == k then es[0].totalAmount else 0) + KindSum(es[1..], k)
  }

  predicate HasGroup(es: seq<CategoryReport>, g: GroupKey) {
    exists i :: 0 <= i < |es| && KeyOfReport(es[i]) == g
  }

  predicate GroupsDistinct(es: seq<CategoryReport>) {
    forall i, j :: 0 <= i < j < |es| ==> KeyOfReport(es[i]) != KeyOfReport(es[j])
  }

  lemma HasGroupCons(x: CategoryReport, s: seq<CategoryReport>, g: GroupKey)
    ensures HasGroup([x] + s, g) <==> KeyOfReport(x) == g || HasGroup(s, g)
  {
    assert ([x] + s)[0] == x;
    if HasGroup(s, g) {
      var i :| 0 <= i < |s| && KeyOfReport(s[i]) == g;
      assert ([x] + s)[i + 1] == s[i];
    }
    if HasGroup([x] + s, g) && KeyOfReport(x) != g {
      var i :| 0 <= i < |[x] + s| && KeyOfReport(([x] + s)[i]) == g;
      assert s[i - 1] == ([x] + s)[i];
    }
  }

  lemma DistinctCons(x: CategoryReport, s: seq<CategoryReport>)
    requires GroupsDistinct(s) && !HasGroup(s, KeyOfReport(x))
    ensures GroupsDistinct([x] + s)
  {
    assert forall i :: 0 < i <= |s| ==> ([x] + s)[i] == s[i - 1];
  }

  lemma DistinctTail(s: seq<CategoryReport>)
    requires GroupsDistinct(s) && |s| > 0
    ensures GroupsDistinct(s[1..]) && !HasGroup(s[1..], KeyOfReport(s[0]))
  {
    assert forall i :: 0 <= i < |s[1..]| ==> s[1..][i] == s[i + 1];
  }

  /** Adds one join row to the running groups: into its group's line if there is
      one, else as a new line at the end. */
  function AddToRollup(es: seq<CategoryReport>, r: Row): seq<CategoryReport> {
    if |es| == 0 then
      [CategoryReport(r.category.id, r.category.name, r.category.kind, r.tx.amount, 1)]
    else if KeyOfReport(es[0]) == KeyOfRow(r) then
      [es[0].(totalAmount := es[0].totalAmount + r.tx.amount, transactionCount := es[0].transactionCount + 1)] + es[1..]
    else
      [es[0]] + AddToRollup(es[1..], r)
  }

  /** Adding a row creates its group if missing and touches no other group. */
  lemma {:induction false} AddToRollupGroups(es: seq<CategoryReport>, r: Row, g: GroupKey)
    ensures HasGroup(AddToRollup(es, r), g) <==> HasGroup(es, g) || g == KeyOfRow(r)
  {
    if |es| == 0 {
      var res := AddToRollup(es, r);
      assert res == [res[0]] + [];
      HasGroupCons(res[0], [], g);
    } else {
      assert es == [es[0]] + es[1..];
      HasGroupCons(es[0], es[1..], g);
      var res := AddToRollup(es, r);
      if KeyOfReport(es[0]) == KeyOfRow(r) {
        HasGroupCons(res[0], es[1..], g);
      } else {
        AddToRollupGroups(es[1..], r, g);
        HasGroupCons(es[0], AddToRollup(es[1..], r), g);
      }
    }
  }

  /** Adding a row keeps one line per group. */
  lemma {:induction false} AddToRollupDistinct(es: seq<CategoryReport>, r: Row)
    requires GroupsDistinct(es)
    ensures GroupsDistinct(AddToRollup(es, r))
  {
    if |es| > 0 {
      DistinctTail(es);
      if KeyOfReport(es[0]) == KeyOfRow(r) {
        DistinctCons(AddToRollup(es, r)[0], es[1..]);
      } else {
        AddToRollupDistinct(es[1..], r);
        AddToRollupGroups(es[1..], r, KeyOfReport(es[0]));
        DistinctCons(es[0], AddToRollup(es[1..], r));
      }
    }
  }

  /** Adding a row adds its amount and one to its own group's line only, and its
      amount to its kind's sum. */
  lemma {:induction false} AddToRollupSums(es: seq<CategoryReport>, r: Row, g: GroupKey, k: Kind)
    ensures LineTotal(AddToRollup(es, r), g) == LineTotal(es, g) + (if g == KeyOfRow(r) then r.tx.amount else 0)
    ensures LineCount(AddToRollup(es, r), g) == LineCount(es, g) + (if g == KeyOfRow(r) then 1 else 0)
    ensures KindSum(AddToRollup(es, r), k) == KindSum(es, k) + Contribution(r, k)
  {
    if |es| > 0 && KeyOfReport(es[0]) != KeyOfRow(r) {
      AddToRollupSums(es[1..], r, g, k);
    }
  }

  /** The rollup of `rows`: one line per group, in order of first appearance. */
  function Rollup(rows: seq<Row>): seq<CategoryReport> {
    if |rows| == 0 then [] else AddToRollup(Rollup(rows[..|rows| - 1]), rows[|rows| - 1])
  }

  /** No group has two lines. */
  lemma {:induction false} RollupDistinct(rows: seq<Row>)
    ensures GroupsDistinct(Rollup(rows))
  {
    if |rows| > 0 {
      RollupDistinct(rows[..|rows| - 1]);
      AddToRollupDistinct(Rollup(rows[..|rows| - 1]), rows[|rows| - 1]);
    }
  }

  /** A group has a line exactly when some row belongs to it, and the line's total
      and count are the group's sum and row count. */
  lemma {:induction false} RollupCorrect(rows: seq<Row>, g: GroupKey)
    ensures HasGroup(Rollup(rows), g) <==> exists r :: r in rows && KeyOfRow(r) == g
    ensures LineTotal(Rollup(rows), g) == GroupTotal(rows, g)
    ensures LineCount(Rollup(rows), g) == GroupCount(rows, g)
  {
    if |rows| > 0 {
      var front := rows[..|rows| - 1];
      var last := rows[|rows| - 1];
      RollupCorrect(front, g);
      AddToRollupGroups(Rollup(front), last, g);
      AddToRollupSums(Rollup(front), last, g, Income);
      assert forall r :: r in rows <==> r in front || r == last;
    }
  }

  /** Summing the lines of one kind gives that kind's total over all rows. */
  lemma {:induction false} RollupKindSum(rows: seq<Row>, k: Kind)
    ensures KindSum(Rollup(rows), k) == KindTotal(rows, k)
  {
    if |rows| > 0 {
      var front := rows[..|rows| - 1];
      RollupKindSum(front, k);
      AddToRollupSums(Rollup(front), rows[|rows| - 1], KeyOfRow(rows[0]), k);
    }
  }

  /** In a list of distinct groups, a line's own total and count are its group's. */
  lemma {:induction false} LineOfDistinct(es: seq<CategoryReport>, i: int)
    requires GroupsDistinct(es) && 0 <= i < |es|
    ensures LineTotal(es, KeyOfReport(es[i])) == es[i].totalAmount
    ensures LineCount(es, KeyOfReport(es[i])) == es[i].transactionCount
  {
    var g := KeyOfReport(es[i]);
    if i == 0 {
      LineZeroWithout(es[1..], g);
    } else {
      LineOfDistinct(es[1..], i - 1);
    }
  }

  lemma {:induction false} LineZeroWithout(es: seq<CategoryReport>, g: GroupKey)
    requires !HasGroup(es, g)
    ensures LineTotal(es, g) == 0 && LineCount(es, g) == 0
  {
    if |es| > 0 {
      assert KeyOfReport(es[0]) != g;
      assert !HasGroup(es[1..], g) by {
        forall i | 0 <= i < |es[1..]| ensures KeyOfReport(es[1..][i]) != g {
          assert es[1..][i] == es[i + 1];
        }
      }
      LineZeroWithout(es[1..], g);
    }
  }

  /** Every line of the rollup: its total is the sum, and its count the number, of
      the rows of its category; the count is at least one. */
  lemma RollupLine(rows: seq<Row>, i: int)
    requires 0 <= i < |Rollup(rows)|
    ensures Rollup(rows)[i].totalAmount == GroupTotal(rows, KeyOfReport(Rollup(rows)[i]))
    ensures Rollup(rows)[i].transactionCount == GroupCount(rows, KeyOfReport(Rollup(rows)[i]))
    ensures exists r :: r in rows && KeyOfRow(r) == KeyOfReport(Rollup(rows)[i])
  {
    var g := KeyOfReport(Rollup(rows)[i]);
    RollupDistinct(rows);
    RollupCorrect(rows, g);
    LineOfDistinct(Rollup(rows), i);
    assert HasGroup(Rollup(rows), g);
  }

  /** Every line of the rollup counts at least one row. */
  lemma {:induction false} GroupCountPositive(rows: seq<Row>, r: Row)
    requires r in rows
    ensures GroupCount(rows, KeyOfRow(r)) >= 1
  {
    var front := rows[..|rows| - 1];
    if rows[|rows| - 1] != r {
      assert r in front;
      GroupCountPositive(front, r);
    }
  }

  /** A line of the rollup: its total and count are its category's sum and number
      of rows, and there is at least one row. */
  lemma RollupMember(rows: seq<Row>, e: CategoryReport)
    requires e in Rollup(rows)
    ensures e.totalAmount == GroupTotal(rows, KeyOfReport(e))
    ensures e.transactionCount == GroupCount(rows, KeyOfReport(e))
    ensures e.transactionCount >= 1
  {
    var k :| 0 <= k < |Rollup(rows)| && Rollup(rows)[k] == e;
    RollupLine(rows, k);
    var r :| r in rows && KeyOfRow(r) == KeyOfReport(e);
    GroupCountPositive(rows, r);
  }
}
