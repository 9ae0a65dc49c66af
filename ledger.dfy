/**
 * The expense rows as the queries see them, and the meaning of the SQL the
 * tracker runs over them: `WHERE` (select), `ORDER BY date [DESC]` (a stable
 * sort on the date text) and the running totals.
 */
module Ledger {
  import opened Lex

  /**
   * One row of the `expenses` table: `date` is the stored
   * `YYYY-MM-DD HH:MM:SS` text, `category` one of the labels when the row
   * was added by the tracker, `amount` positive when it was.
   */
  datatype Expense = Expense(date: string, category: string, amount: real, note: string)

  function Amount(e: Expense): real
  {
    e.amount
  }

  /** The sum of `f` over the rows. */
  function SumOf(rows: seq<Expense>, f: Expense -> real): real
  {
    if rows == [] then 0.0 else SumOf(rows[..|rows| - 1], f) + f(rows[|rows| - 1])
  }

  /** The sum of the amounts of the rows. */
  function Total(rows: seq<Expense>): real
  {
    SumOf(rows, Amount)
  }

  /** The rows satisfying `keep`, in their original order (`WHERE`). */
  function Where(rows: seq<Expense>, keep: Expense -> bool): (r: seq<Expense>)
    ensures forall e :: multiset(r)[e] == if keep(e) then multiset(rows)[e] else 0
  {
    if rows == [] then []
    else
      var init, last := rows[..|rows| - 1], rows[|rows| - 1];
      assert rows == init + [last];
      Where(init, keep) + (if keep(last) then [last] else [])
  }

  /** `f` on the rows `keep` holds for, zero on the others. */
  function Masked(keep: Expense -> bool, f: Expense -> real): Expense -> real
  {
    (e: Expense) => if keep(e) then f(e) else 0.0
  }

  /** Summing over the selected rows is summing over all rows with the others counted as zero. */
  lemma {:induction false} SumOfWhere(rows: seq<Expense>, keep: Expense -> bool, f: Expense -> real)
    ensures SumOf(Where(rows, keep), f) == SumOf(rows, Masked(keep, f))
  {
    if rows != [] {
      var init, last := rows[..|rows| - 1], rows[|rows| - 1];
      SumOfWhere(init, keep, f);
      var w := Where(init, keep);
      if keep(last) {
        assert (w + [last])[..|w|] == w;
      } else {
        assert w + [] == w;
      }
    }
  }

  /** `a` may stand before `b` under `ORDER BY date` (or `ORDER BY date DESC`). */
  predicate InDateOrder(a: Expense, b: Expense, descending: bool)
  {
    if descending then LexLe(b.date, a.date) else LexLe(a.date, b.date)
  }

  predicate SortedByDate(rows: seq<Expense>, descending: bool)
  {
    forall i, j :: 0 <= i < j < |rows| ==> InDateOrder(rows[i], rows[j], descending)
  }

  lemma InDateOrderTotal(a: Expense, b: Expense, descending: bool)
    ensures InDateOrder(a, b, descending) || InDateOrder(b, a, descending)
  {
    LexLeTotal(a.date, b.date);
  }

  lemma InDateOrderTransitive(a: Expense, b: Expense, c: Expense, descending: bool)
    requires InDateOrder(a, b, descending) && InDateOrder(b, c, descending)
    ensures InDateOrder(a, c, descending)
  {
    if descending {
      LexLeTransitive(c.date, b.date, a.date);
    } else {
      LexLeTransitive(a.date, b.date, c.date);
    }
  }

  /** A row that may follow the last row of a sorted sequence may follow all of them. */
  lemma SortedAppend(rows: seq<Expense>, x: Expense, descending: bool)
    requires SortedByDate(rows, descending)
    requires rows == [] || InDateOrder(rows[|rows| - 1], x, descending)
    ensures SortedByDate(rows + [x], descending)
  {
    forall i | 0 <= i < |rows| - 1
      ensures InDateOrder(rows[i], x, descending)
    {
      InDateOrderTransitive(rows[i], rows[|rows| - 1], x, descending);
    }
  }

  /** Every row may stand before `y`. */
  predicate AllBefore(rows: seq<Expense>, y: Expense, descending: bool)
  {
    forall i :: 0 <= i < |rows| ==> InDateOrder(rows[i], y, descending)
  }

  lemma SortedAppendAll(rows: seq<Expense>, y: Expense, descending: bool)
    requires SortedByDate(rows, descending) && AllBefore(rows, y, descending)
    ensures SortedByDate(rows + [y], descending)
  {
  }

  /** `AllBefore` depends only on which rows there are. */
  lemma AllBeforeSameRows(rows: seq<Expense>, x: Expense, s: seq<Expense>, y: Expense, descending: bool)
    requires AllBefore(rows, y, descending) && InDateOrder(x, y, descending)
    requires multiset(s) == multiset(rows) + multiset{x}
    ensures AllBefore(s, y, descending)
  {
    forall i | 0 <= i < |s|
      ensures InDateOrder(s[i], y, descending)
    {
      assert s[i] in multiset(s);
      if s[i] != x {
        assert s[i] in multiset(rows);
        var k :| 0 <= k < |rows| && rows[k] == s[i];
      }
    }
  }

  /** `x` placed into sorted `rows` after every row it may follow. */
  function InsertByDate(x: Expense, rows: seq<Expense>, descending: bool): (r: seq<Expense>)
    requires SortedByDate(rows, descending)
    ensures SortedByDate(r, descending)
    ensures multiset(r) == multiset(rows) + multiset{x}
  {
    if rows == [] || InDateOrder(rows[|rows| - 1], x, descending) then
      SortedAppend(rows, x, descending);
      rows + [x]
    else
      var init, last := rows[..|rows| - 1], rows[|rows| - 1];
      var s := InsertByDate(x, init, descending);
      InDateOrderTotal(x, last, descending);
      assert rows == init + [last];
      assert AllBefore(init, last, descending);
      AllBeforeSameRows(init, x, s, last, descending);
      SortedAppendAll(s, last, descending);
      s + [last]
  }

  /**
   * The rows as `ORDER BY date` (ascending, or descending) returns them:
   * the same rows, sorted on the date text. Rows with equal dates keep
   * their table order here; SQLite leaves that order open.
   */
  function OrderByDate(rows: seq<Expense>, descending: bool): (r: seq<Expense>)
    ensures SortedByDate(r, descending)
    ensures multiset(r) == multiset(rows)
  {
    if rows == [] then []
    else
      var init, last := rows[..|rows| - 1], rows[|rows| - 1];
      assert rows == init + [last];
      InsertByDate(last, OrderByDate(init, descending), descending)
  }

  lemma {:induction false} SumOfInsert(x: Expense, rows: seq<Expense>, descending: bool, f: Expense -> real)
    requires SortedByDate(rows, descending)
    ensures SumOf(InsertByDate(x, rows, descending), f) == SumOf(rows, f) + f(x)
  {
    if rows == [] || InDateOrder(rows[|rows| - 1], x, descending) {
      assert (rows + [x])[..|rows|] == rows;
    } else {
      var init, last := rows[..|rows| - 1], rows[|rows| - 1];
      SumOfInsert(x, init, descending, f);
      var r := InsertByDate(x, init, descending) + [last];
      assert r[..|r| - 1] == InsertByDate(x, init, descending);
    }
  }

  /** Sorting keeps every sum over the rows. */
  lemma {:induction false} SumOfOrder(rows: seq<Expense>, descending: bool, f: Expense -> real)
    ensures SumOf(OrderByDate(rows, descending), f) == SumOf(rows, f)
  {
    if rows != [] {
      var init, last := rows[..|rows| - 1], rows[|rows| - 1];
      SumOfOrder(init, descending, f);
      SumOfInsert(last, OrderByDate(init, descending), descending, f);
    }
  }

  /** Sums of functions that agree on the rows are equal. */
  lemma {:induction false} SumOfPointwise(rows: seq<Expense>, f: Expense -> real, g: Expense -> real)
    requires forall i :: 0 <= i < |rows| ==> f(rows[i]) == g(rows[i])
    ensures SumOf(rows, f) == SumOf(rows, g)
  {
    if rows != [] {
      SumOfPointwise(rows[..|rows| - 1], f, g);
    }
  }

  /** The loop `total += amount` over the rows (`show_all_expenses`, `search_expenses`). */
  method GrandTotal(rows: seq<Expense>) returns (total: real)
    ensures total == Total(rows)
  {
    total := 0.0;
    for i := 0 to |rows|
      invariant total == Total(rows[..i])
    {
      assert rows[..i + 1][..i] == rows[..i];
      total := total + rows[i].amount;
    }
    assert rows[..|rows|] == rows;
  }
}
