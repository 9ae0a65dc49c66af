/**
 * The three read-only views of the table: the full history
 * (`show_all_expenses`), the per-category totals (`category_breakdown`)
 * and the filtered views (`search_expenses`), each with the SQL it runs
 * modelled by its meaning over the rows.
 */
module Queries {
  import opened Wrappers
  import opened Lex
  import opened Digits
  import opened Text
  import opened Timestamp
  import opened Ledger
  import opened Buckets
  import opened Validation
  import Calendar

  datatype History = NoExpenses | History(rows: seq<Expense>, total: real)

  /**
   * `show_all_expenses`: every row, newest first (`ORDER BY date DESC`),
   * with the running total of their amounts.
   */
  method ShowAllExpenses(table: seq<Expense>) returns (h: History)
    ensures h.NoExpenses? <==> table == []
    ensures h.History? ==> h.rows == OrderByDate(table, true) && h.total == Total(table)
  {
    var allExpenses := OrderByDate(table, true);
    if |allExpenses| == 0 {
      assert |table| == |multiset(table)| == |multiset(allExpenses)|;
      return NoExpenses;
    }
    var totalAmount := GrandTotal(allExpenses);
    SumOfOrder(table, true, Amount);
    h := History(allExpenses, totalAmount);
  }

  /** The row history lists every row of the table once and sums to the table's total. */
  lemma HistoryMeaning(table: seq<Expense>)
    ensures SortedByDate(OrderByDate(table, true), true)
    ensures multiset(OrderByDate(table, true)) == multiset(table)
    ensures Total(OrderByDate(table, true)) == Total(table)
  {
    SumOfOrder(table, true, Amount);
  }

  /** `GROUP BY category`: every row goes to the bucket of its category. */
  function CategoryOf(): Bucketing
  {
    (e: Expense) => Some(e.category)
  }

  /**
   * `SELECT category, SUM(amount) FROM expenses GROUP BY category`: no
   * groups for an empty table; otherwise one group per category that occurs
   * in the table, holding the sum of that category's amounts, the groups
   * adding up to the whole table. For rows the tracker wrote, every group is
   * one of the fixed labels.
   */
  function CategoryBreakdown(table: seq<Expense>): (r: Option<map<string, real>>)
    ensures r.None? <==> table == []
    ensures r.Some? ==> r.value.Keys == (set e | e in table :: e.category)
    ensures r.Some? ==> forall k :: k in r.value ==> r.value[k] == SumOf(table, Masked(HasCategory(k), Amount))
    ensures r.Some? ==> MapSum(r.value) == Total(table)
    ensures r.Some? && (forall i :: 0 <= i < |table| ==> WellFormed(table[i])) ==> forall k :: k in r.value ==> k in Labels
  {
    if table == [] then None
    else
      CategoryGroups(table);
      CategoriesAreLabels(table);
      Some(Totals(Entries(table, CategoryOf())))
  }

  /** The category totals of the rows: their keys, their values and their sum. */
  lemma CategoryGroups(table: seq<Expense>)
    ensures var groups := Totals(Entries(table, CategoryOf()));
      && groups.Keys == (set e | e in table :: e.category)
      && (forall k :: k in groups ==> groups[k] == SumOf(table, Masked(HasCategory(k), Amount)))
      && MapSum(groups) == Total(table)
  {
    var b := CategoryOf();
    var groups := Totals(Entries(table, b));
    BucketsMeaning(table, b);
    assert groups.Keys == (set e | e in table :: e.category) by {
      assert BucketsOf(table, b) == (set e | e in table :: e.category);
    }
    forall k | k in groups
      ensures groups[k] == SumOf(table, Masked(HasCategory(k), Amount))
    {
      SumOfPointwise(table, AmountIn(b, k), Masked(HasCategory(k), Amount));
    }
    assert MapSum(groups) == Total(table) by {
      SumOfPointwise(table, Placed(b), Amount);
    }
  }

  /** In rows the tracker wrote, every category is one of the fixed labels. */
  lemma CategoriesAreLabels(table: seq<Expense>)
    ensures (forall i :: 0 <= i < |table| ==> WellFormed(table[i])) ==> forall e :: e in table ==> e.category in Labels
  {
    if forall i :: 0 <= i < |table| ==> WellFormed(table[i]) {
      forall e | e in table
        ensures e.category in Labels
      {
        var i :| 0 <= i < |table| && table[i] == e;
      }
    }
  }

  /** `WHERE category = ?`. */
  function HasCategory(name: string): Expense -> bool
  {
    (e: Expense) => e.category == name
  }

  /** `date BETWEEN lo AND hi`: both ends included, in text order. */
  predicate Between(date: string, lo: string, hi: string)
  {
    LexLe(lo, date) && LexLe(date, hi)
  }

  function InRange(lo: string, hi: string): Expense -> bool
  {
    (e: Expense) => Between(e.date, lo, hi)
  }

  /** The start and end answers, stripped, widened to the first and last second of their days. */
  function RangeBounds(startAnswer: string, endAnswer: string): (string, string)
  {
    (Strip(startAnswer) + " 00:00:00", Strip(endAnswer) + " 23:59:59")
  }

  /** The rows of one category, newest first. */
  function CategoryMatches(table: seq<Expense>, name: string): (r: seq<Expense>)
    ensures SortedByDate(r, true)
    ensures forall e :: multiset(r)[e] == if e.category == name then multiset(table)[e] else 0
  {
    OrderByDate(Where(table, HasCategory(name)), true)
  }

  /** The rows whose date lies between the bounds, newest first. */
  function RangeMatches(table: seq<Expense>, lo: string, hi: string): (r: seq<Expense>)
    ensures SortedByDate(r, true)
    ensures forall e :: multiset(r)[e] == if Between(e.date, lo, hi) then multiset(table)[e] else 0
  {
    OrderByDate(Where(table, InRange(lo, hi)), true)
  }

  datatype SearchResult = BadChoice | NoSuchCategory | NoMatch | Found(rows: seq<Expense>, total: real)

  /** How a selection is shown: "no match" when empty, else the rows and their total. */
  predicate Shows(result: SearchResult, rows: seq<Expense>)
  {
    if rows == [] then result == NoMatch else result == Found(rows, Total(rows))
  }

  /**
   * `search_expenses`: choice "1" filters on a category (refused when the
   * answer names none), choice "2" on a date range whose bounds are not
   * checked, anything else is refused; the matches are shown newest first
   * with their total.
   */
  method SearchExpenses(table: seq<Expense>, choiceAnswer: string, categoryAnswer: string, startAnswer: string, endAnswer: string)
    returns (result: SearchResult)
    ensures Strip(choiceAnswer) != "1" && Strip(choiceAnswer) != "2" ==> result == BadChoice
    ensures Strip(choiceAnswer) == "1" ==>
      match ParseCategory(categoryAnswer)
      case None => result == NoSuchCategory
      case Some(c) => Shows(result, CategoryMatches(table, Label(c)))
    ensures Strip(choiceAnswer) == "2" ==>
      Shows(result, RangeMatches(table, RangeBounds(startAnswer, endAnswer).0, RangeBounds(startAnswer, endAnswer).1))
  {
    var filterChoice := Strip(choiceAnswer);
    var results: seq<Expense>;
    if filterChoice == "1" {
      var selected := ParseCategory(categoryAnswer);
      if selected.None? {
        return NoSuchCategory;
      }
      results := CategoryMatches(table, Label(selected.value));
    } else if filterChoice == "2" {
      var startDate := Strip(startAnswer);
      var endDate := Strip(endAnswer);
      var startDatetime := startDate + " 00:00:00";
      var endDatetime := endDate + " 23:59:59";
      results := RangeMatches(table, startDatetime, endDatetime);
    } else {
      return BadChoice;
    }
    if results == [] {
      return NoMatch;
    }
    var totalFiltered := GrandTotal(results);
    result := Found(results, totalFiltered);
  }

  /**
   * The category filter finds exactly the rows of that category, and its
   * total is what the category breakdown shows for that category.
   */
  lemma CategorySearchMeaning(table: seq<Expense>, c: Category)
    ensures forall e :: e in CategoryMatches(table, Label(c)) <==> e in table && e.category == Label(c)
    ensures Total(CategoryMatches(table, Label(c))) == SumOf(table, Masked(HasCategory(Label(c)), Amount))
    ensures table != [] && Label(c) in CategoryBreakdown(table).value ==>
      Total(CategoryMatches(table, Label(c))) == CategoryBreakdown(table).value[Label(c)]
  {
    var name := Label(c);
    var found := CategoryMatches(table, name);
    assert forall e :: e in found <==> e in multiset(found);
    SumOfOrder(Where(table, HasCategory(name)), true, Amount);
    SumOfWhere(table, HasCategory(name), Amount);
  }

  /** The date filter's total is the sum of the amounts of the rows in range. */
  lemma RangeSearchTotal(table: seq<Expense>, lo: string, hi: string)
    ensures Total(RangeMatches(table, lo, hi)) == SumOf(table, Masked(InRange(lo, hi), Amount))
  {
    SumOfOrder(Where(table, InRange(lo, hi)), true, Amount);
    SumOfWhere(table, InRange(lo, hi), Amount);
  }

  /** Day (y1, m1, d1) is not after day (y2, m2, d2). */
  predicate DayNotAfter(y1: nat, m1: nat, d1: nat, y2: nat, m2: nat, d2: nat)
  {
    y1 < y2 || (y1 == y2 && (m1 < m2 || (m1 == m2 && d1 <= d2)))
  }

  /** A timestamp is at or after the start bound exactly when its day is not before the start day. */
  lemma StartBound(y: nat, m: nat, d: nat, t: DateTime)
    requires Calendar.ValidDate(y, m, d) && Valid(t)
    ensures LexLe(DateText(y, m, d) + " 00:00:00", Format(t)) <==> DayNotAfter(y, m, d, t.year, t.month, t.day)
  {
    var s := DateTime(y, m, d, 0, 0, 0);
    PadTwo(0);
    assert TimeText(0, 0, 0) == " 00:00:00";
    FormatOrder(s, t);
  }

  /** A timestamp is at or before the end bound exactly when its day is not after the end day. */
  lemma EndBound(y: nat, m: nat, d: nat, t: DateTime)
    requires Calendar.ValidDate(y, m, d) && Valid(t)
    ensures LexLe(Format(t), DateText(y, m, d) + " 23:59:59") <==> DayNotAfter(t.year, t.month, t.day, y, m, d)
  {
    var s := DateTime(y, m, d, 23, 59, 59);
    PadTwo(23);
    PadTwo(59);
    assert TimeText(23, 59, 59) == " 23:59:59";
    FormatOrder(t, s);
  }

  /** A written day has no surrounding whitespace. */
  lemma StripDateText(y: nat, m: nat, d: nat)
    ensures Strip(DateText(y, m, d)) == DateText(y, m, d)
  {
    var s := DateText(y, m, d);
    assert IsDigit(s[0]) && IsDigit(s[|s| - 1]);
    StripPadded([], s, []);
    assert [] + s + [] == s;
  }

  /** Answers that are written days stay as they are. */
  lemma RangeBoundsOfDays(y1: nat, m1: nat, d1: nat, y2: nat, m2: nat, d2: nat)
    ensures RangeBounds(DateText(y1, m1, d1), DateText(y2, m2, d2)) ==
      (DateText(y1, m1, d1) + " 00:00:00", DateText(y2, m2, d2) + " 23:59:59")
  {
    StripDateText(y1, m1, d1);
    StripDateText(y2, m2, d2);
  }

  /**
   * For start and end answers that are days written `YYYY-MM-DD`, a row
   * whose date reads is in range exactly when its day lies between the two
   * days, both included, whatever its time of day.
   */
  lemma RangeIsDays(date: string, t: DateTime, y1: nat, m1: nat, d1: nat, y2: nat, m2: nat, d2: nat)
    requires Parse(date) == Some(t)
    requires Calendar.ValidDate(y1, m1, d1) && Calendar.ValidDate(y2, m2, d2)
    ensures Between(date, RangeBounds(DateText(y1, m1, d1), DateText(y2, m2, d2)).0, RangeBounds(DateText(y1, m1, d1), DateText(y2, m2, d2)).1)
      <==> DayNotAfter(y1, m1, d1, t.year, t.month, t.day) && DayNotAfter(t.year, t.month, t.day, y2, m2, d2)
  {
    ParseIffFormat(date, t);
    RangeBoundsOfDays(y1, m1, d1, y2, m2, d2);
    StartBound(y1, m1, d1, t);
    EndBound(y2, m2, d2, t);
  }

  /** For January 2024, the last second of the 31st is in range and the first second of February is not. */
  lemma JanuaryRange()
    ensures var (lo, hi) := RangeBounds("2024-01-01", "2024-01-31");
      Between("2024-01-31 23:59:59", lo, hi) && !Between("2024-02-01 00:00:00", lo, hi)
  {
    var last, next := DateTime(2024, 1, 31, 23, 59, 59), DateTime(2024, 2, 1, 0, 0, 0);
    JanuaryDays();
    JanuaryLastSecond();
    FebruaryFirstSecond();
    ParseFormat(last);
    ParseFormat(next);
    RangeIsDays("2024-01-31 23:59:59", last, 2024, 1, 1, 2024, 1, 31);
    RangeIsDays("2024-02-01 00:00:00", next, 2024, 1, 1, 2024, 1, 31);
  }

  lemma JanuaryDays()
    ensures DateText(2024, 1, 1) == "2024-01-01"
    ensures DateText(2024, 1, 31) == "2024-01-31"
  {
    Year2024();
    DayPads();
  }

  lemma JanuaryLastSecond()
    ensures Format(DateTime(2024, 1, 31, 23, 59, 59)) == "2024-01-31 23:59:59"
  {
    JanuaryDays();
    LastSecondText();
    LastSecondJoin();
  }

  lemma LastSecondJoin()
    ensures "2024-01-31" + " 23:59:59" == "2024-01-31 23:59:59"
  {
  }

  lemma FebruaryFirstSecond()
    ensures Format(DateTime(2024, 2, 1, 0, 0, 0)) == "2024-02-01 00:00:00"
  {
    FebruaryFirst();
    MidnightText();
    FirstSecondJoin();
  }

  lemma FirstSecondJoin()
    ensures "2024-02-01" + " 00:00:00" == "2024-02-01 00:00:00"
  {
  }

  lemma FebruaryFirst()
    ensures DateText(2024, 2, 1) == "2024-02-01"
  {
    Year2024();
    DayPads();
  }

  lemma LastSecondText()
    ensures TimeText(23, 59, 59) == " 23:59:59"
  {
    TimePads();
  }

  lemma MidnightText()
    ensures TimeText(0, 0, 0) == " 00:00:00"
  {
    TimePads();
  }

  lemma Year2024()
    ensures Pad(2024, 4) == "2024"
  {
    PadFour(2024);
  }

  lemma DayPads()
    ensures Pad(1, 2) == "01" && Pad(2, 2) == "02" && Pad(31, 2) == "31"
  {
    PadTwo(1);
    PadTwo(2);
    PadTwo(31);
  }

  lemma TimePads()
    ensures Pad(0, 2) == "00" && Pad(23, 2) == "23" && Pad(59, 2) == "59"
  {
    PadTwo(0);
    PadTwo(23);
    PadTwo(59);
  }

  /** The bounds are not checked: a blank start answer puts no lower limit on the dates. */
  lemma BlankStartIsNoLimit(date: string)
    requires date != [] && IsDigit(date[0])
    ensures LexLe(RangeBounds("  ", "").0, date)
  {
    assert Strip("  ") == [] by {
      StripPadded("  ", [], []);
      assert "  " + [] + [] == "  ";
    }
  }
}
