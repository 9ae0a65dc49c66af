/**
 * `analyze_spending_trends`: the rows fetched in ascending date order, each
 * row whose date reads as a timestamp added into a weekly and a monthly
 * dictionary, rows whose date does not read skipped, and both dictionaries
 * listed in ascending key order.
 */
module Trends {
  import opened Wrappers
  import opened Timestamp
  import opened Ledger
  import opened Buckets
  import opened PeriodKeys
  import Calendar

  /**
   * The weekly bucket as written (calendar year and ISO week), the weekly
   * bucket with the ISO week-numbering year, and the monthly bucket.
   */
  datatype Period = Week | IsoWeek | Month

  /** The bucket label of a date-time for the period. */
  function PeriodKey(p: Period, t: DateTime): string
    requires Valid(t)
  {
    match p
    case Week => WeekKey(t)
    case IsoWeek => IsoWeekKey(t)
    case Month => MonthKey(t)
  }

  /**
   * The bucketing of `analyze_spending_trends`: a row whose date reads goes
   * to the label of that date; a row whose date raises ValueError goes
   * nowhere.
   */
  function PeriodBucket(p: Period): Bucketing
  {
    (e: Expense) => match Parse(e.date) case None => None case Some(t) => Some(PeriodKey(p, t))
  }

  lemma PeriodBucketOf(e: Expense, p: Period)
    ensures PeriodBucket(p)(e) == if Parse(e.date).Some? then Some(PeriodKey(p, Parse(e.date).value)) else None
  {
  }

  /** With the ISO week-numbering year, two rows share a weekly bucket exactly when they fall in the same Monday-to-Sunday week. */
  lemma IsoWeekBucketsAreWeeks(e1: Expense, e2: Expense)
    requires Parse(e1.date).Some? && Parse(e2.date).Some?
    ensures PeriodBucket(IsoWeek)(e1) == PeriodBucket(IsoWeek)(e2) <==>
      Calendar.MondayOf(DayNumber(Parse(e1.date).value)) == Calendar.MondayOf(DayNumber(Parse(e2.date).value))
  {
    PeriodBucketOf(e1, IsoWeek);
    PeriodBucketOf(e2, IsoWeek);
    IsoWeekKeySameIffSameWeek(Parse(e1.date).value, Parse(e2.date).value);
  }

  /** The row's amount if its date reads, zero if the row is skipped. */
  function ParsedAmount(e: Expense): real
  {
    if Parse(e.date).Some? then e.amount else 0.0
  }

  /** The sum of the amounts of the rows whose date reads. */
  function ParsedTotal(rows: seq<Expense>): real
  {
    SumOf(rows, ParsedAmount)
  }

  /** A row whose date does not read is in neither dictionary, and the rows after it still are. */
  lemma UnreadableRowSkipped(before: seq<Expense>, e: Expense, after: seq<Expense>, p: Period)
    requires Parse(e.date).None?
    ensures Entries(before + [e] + after, PeriodBucket(p)) == Entries(before + after, PeriodBucket(p))
  {
    UnplacedRowSkipped(before, e, after, PeriodBucket(p));
  }

  /** Both periods place exactly the rows whose date reads. */
  lemma PlacedIsParsed(rows: seq<Expense>, p: Period)
    ensures SumOf(rows, Placed(PeriodBucket(p))) == ParsedTotal(rows)
  {
    SumOfPointwise(rows, Placed(PeriodBucket(p)), ParsedAmount);
  }

  /**
   * The loop of `analyze_spending_trends`: each row whose date reads is
   * added into both dictionaries by insert-or-add; a row whose date does
   * not read changes neither.
   */
  method BucketTotals(rows: seq<Expense>) returns (weekly: map<string, real>, monthly: map<string, real>)
    ensures weekly == Totals(Entries(rows, PeriodBucket(Week)))
    ensures monthly == Totals(Entries(rows, PeriodBucket(Month)))
  {
    weekly, monthly := map[], map[];
    for i := 0 to |rows|
      invariant weekly == Totals(Entries(rows[..i], PeriodBucket(Week)))
      invariant monthly == Totals(Entries(rows[..i], PeriodBucket(Month)))
    {
      TotalsStep(rows, i, PeriodBucket(Week));
      TotalsStep(rows, i, PeriodBucket(Month));
      var expenseDate := Parse(rows[i].date);
      PeriodBucketOf(rows[i], Week);
      PeriodBucketOf(rows[i], Month);
      if expenseDate.Some? {
        var t := expenseDate.value;
        var yearWeek := WeekKey(t);
        var monthYear := MonthKey(t);
        var amount := rows[i].amount;
        weekly := InsertOrAdd(weekly, yearWeek, amount);
        monthly := InsertOrAdd(monthly, monthYear, amount);
      }
    }
    assert rows[..|rows|] == rows;
  }

  /** `if key in d: d[key] += amount` and `else: d[key] = amount`. */
  method InsertOrAdd(d: map<string, real>, key: string, amount: real) returns (r: map<string, real>)
    ensures r == AddTo(d, Entry(key, amount))
    ensures r.Keys == d.Keys + {key}
  {
    if key in d {
      r := d[key := d[key] + amount];
    } else {
      r := d[key := amount];
    }
  }

  datatype TrendReport = NeedData | Summaries(weekly: seq<Entry>, monthly: seq<Entry>)

  /**
   * `analyze_spending_trends` over the table: nothing to report for an
   * empty table; otherwise the weekly and monthly summaries in ascending
   * key order.
   */
  method AnalyzeSpendingTrends(table: seq<Expense>) returns (report: TrendReport)
    ensures report.NeedData? <==> table == []
    ensures report.Summaries? ==>
      && report.weekly == SortedItems(Totals(Entries(OrderByDate(table, false), PeriodBucket(Week))))
      && report.monthly == SortedItems(Totals(Entries(OrderByDate(table, false), PeriodBucket(Month))))
  {
    var records := OrderByDate(table, false);
    if records == [] {
      assert |table| == |multiset(table)| == |multiset(records)| == 0;
      return NeedData;
    }
    var weekly, monthly := BucketTotals(records);
    report := Summaries(SortedItems(weekly), SortedItems(monthly));
  }

  /**
   * Listing the dictionary filled from the rows in ascending date order
   * gives each bucket of the rows once, in ascending key order, with the sum
   * of the amounts of the rows in it; the listing adds up to all placed rows.
   */
  lemma ListingMeaning(table: seq<Expense>, b: Bucketing)
    ensures var items := SortedItems(Totals(Entries(OrderByDate(table, false), b)));
      && KeysIncreasing(items)
      && (forall i :: 0 <= i < |items| ==>
            items[i].key in BucketsOf(table, b) && items[i].amount == SumOf(table, AmountIn(b, items[i].key)))
      && (forall k :: k in BucketsOf(table, b) ==> exists i :: 0 <= i < |items| && items[i].key == k)
      && Sum(items) == SumOf(table, Placed(b))
  {
    var records := OrderByDate(table, false);
    var m := Totals(Entries(records, b));
    assert && m.Keys == BucketsOf(table, b)
      && (forall k :: k in m ==> m[k] == SumOf(table, AmountIn(b, k)))
      && MapSum(m) == SumOf(table, Placed(b))
    by {
      BucketsMeaning(records, b);
      BucketsReordered(table, b, false);
    }
    ListingOfTotals(m, table, b);
  }

  /** A map holding the bucket totals of the table lists as the bucket totals of the table. */
  lemma ListingOfTotals(m: map<string, real>, table: seq<Expense>, b: Bucketing)
    requires m.Keys == BucketsOf(table, b)
    requires forall k :: k in m ==> m[k] == SumOf(table, AmountIn(b, k))
    requires MapSum(m) == SumOf(table, Placed(b))
    ensures var items := SortedItems(m);
      && KeysIncreasing(items)
      && (forall i :: 0 <= i < |items| ==>
            items[i].key in BucketsOf(table, b) && items[i].amount == SumOf(table, AmountIn(b, items[i].key)))
      && (forall k :: k in BucketsOf(table, b) ==> exists i :: 0 <= i < |items| && items[i].key == k)
      && Sum(items) == SumOf(table, Placed(b))
  {
    SortedItemsSum(m);
  }

  /**
   * The weekly and the monthly summaries: each bucket of the table once, in
   * ascending order, with the sum of the amounts of the table's rows in that
   * bucket; each summary adds up to the amounts of all the rows whose date
   * reads.
   */
  lemma SummariesMeaning(table: seq<Expense>, p: Period)
    ensures var items := SortedItems(Totals(Entries(OrderByDate(table, false), PeriodBucket(p))));
      && KeysIncreasing(items)
      && (forall i :: 0 <= i < |items| ==>
            items[i].key in BucketsOf(table, PeriodBucket(p))
            && items[i].amount == SumOf(table, AmountIn(PeriodBucket(p), items[i].key)))
      && (forall k :: k in BucketsOf(table, PeriodBucket(p)) ==> exists i :: 0 <= i < |items| && items[i].key == k)
      && Sum(items) == ParsedTotal(table)
  {
    ListingMeaning(table, PeriodBucket(p));
    PlacedIsParsed(table, p);
  }

  /** When every date reads, nothing is skipped: the summaries add up to the whole table. */
  lemma {:induction false} AllDatesRead(rows: seq<Expense>)
    requires forall i :: 0 <= i < |rows| ==> Parse(rows[i].date).Some?
    ensures ParsedTotal(rows) == Total(rows)
  {
    if rows != [] {
      AllDatesRead(rows[..|rows| - 1]);
    }
  }
}
