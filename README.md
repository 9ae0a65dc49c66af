# Personal Expense Tracker — a Dafny model of its aggregation and filter engine

The tracker (`main.py`) keeps expense rows in a SQLite table. Each row has a
timestamp written as `YYYY-MM-DD HH:MM:SS`, a category from the fixed set
Food / Travel / Study / Other, a positive amount and a note. The tracker then
reports over that table in four ways: the full history, newest first, with a
grand total; the total per category; weekly and monthly summaries; and a
search by category or by date range.

This project models the logic inside those menu functions and proves what
it promises:

- **Input validation** (`validation.dfy`, `text.dfy`):
  - a category answer after `strip().capitalize()`;
  - the amount check;
  - the row that `add_new_expense` writes.
- **Timestamps** (`timestamp.dfy`, `digits.dfy`, `lex.dfy`):
  - writing a timestamp with `strftime` and reading it back with `strptime`;
  - the text order of written timestamps is their order in time.
- **The ISO 8601 week calendar** (`calendar.dfy`). This follows Python's
  `date.isocalendar()`. Weeks start on Monday. Week 1 holds the year's first
  Thursday.
- **Bucket labels** (`period_keys.dfy`): the weekly label
  `{year}-W{week:02d}` and the monthly label `%Y-%m (%B)`.
- **SQL meaning over an in-memory sequence of rows** (`ledger.dfy`):
  - `WHERE`;
  - `ORDER BY date [DESC]`, as a sort on the date text;
  - the running totals.
- **Dictionaries of totals** (`buckets.dfy`):
  - filled by insert-or-add, or by `GROUP BY ... SUM`;
  - listed in ascending key order.
- **`analyze_spending_trends`** (`trends.dfy`): the imperative bucketing loop
  and the summaries.
- **The read-only views** (`queries.dfy`): `show_all_expenses`,
  `category_breakdown` and `search_expenses`.

Each menu function takes the table as a parameter, a sequence of `Expense`
rows. The prompt answers are parameters too. For the amount prompt, the
parameter is the result of `float()` on the answer: `None` where `float()`
raises, otherwise a `Float`, which may be a finite value, an infinity or NaN.
The clock is a `DateTime` parameter. Amounts are Dafny `real`, so sums are
exact.

Text order is code-point order on strings. This is the order that Python
string comparison and SQLite's default `BINARY` collation both use. Python's
`str.isspace()` is modelled on ASCII: space and codes 9–13 and 28–31.

The weekly label takes its year from `expense_date.year` (main.py:152). An
ISO week label would normally carry the ISO week-numbering year; the model
follows the code. See Findings.

## Model

| member | source | states |
|---|---|---|
| Text.StripPadded | main.py:33 | `strip()` removes exactly the whitespace around a body that has no outer whitespace |
| Text.CapitalizeMatches | main.py:33 | `capitalize()` yields a capitalized word exactly when the input is that word in any mixture of cases |
| Validation.ParseCategory | main.py:7 | an answer names a category exactly when its `strip().capitalize()` form is one of `expense_categories`, and that form is the category's label |
| Validation.CategoryAcceptedIff | main.py:33-37 | an answer is taken for category c exactly when, stripped, it equals c's label up to letter case; every other answer is refused |
| Validation.CategoryPadded | main.py:33-34 | surrounding whitespace and the case of the letters never change the category an answer names |
| Validation.CategoryExampleFood | main.py:33-34 | `" fOOd "` is taken as Food |
| Validation.CategoryExampleTravel | main.py:212-213 | `"travel"` is taken as Travel |
| Validation.CategoryExampleUnknown | main.py:212-219 | `"Groceries"` is refused |
| Validation.AmountCheckAsWritten | main.py:42-46 | as written, an amount is taken exactly when it is NaN, +infinity or a positive number, and taken unchanged; it is refused when `float()` raises or `amount <= 0` |
| Validation.AmountCheckAsWrittenAccepts | main.py:42-46 | the answers `nan` and `inf` pass the written check, and the intended check refuses both |
| Validation.CheckAmount | main.py:42-48 | the intended check: an amount is taken exactly when it is a finite number above 0; otherwise the error names why: `NotANumber` when `float()` raises or gives NaN, `NotFinite` for ±infinity, `NotPositive` for a finite amount at or below 0 |
| Validation.CheckAmountRefinesAsWritten | main.py:43 | the intended check takes nothing the written one refuses, and agrees with it on everything except NaN and the infinities |
| Validation.NewExpense | main.py:51-59 | a row is written exactly when the category and the amount are taken; it holds the current time (which reads back as that time), the category label, the amount and the stripped note |
| Timestamp.ParseFormat | main.py:54 | a written timestamp reads back as the same date-time |
| Timestamp.FormatParse | main.py:150 | whatever reads as a date-time is exactly the written form of a valid date-time |
| Timestamp.ParseIffFormat | main.py:150 | `strptime` succeeds on s with t exactly when t is valid and s is t written out |
| Timestamp.FormatOrder | main.py:136 | the text order of two written timestamps is their order in time, so `ORDER BY date` is chronological |
| Calendar.IsoCalendarIsIsoWeek | main.py:152 | `isocalendar()` puts each day in an ISO week: week 1 is the week of the year's first Thursday; weeks run Monday to Sunday; the week number is 1..53 and the weekday is 1..7 |
| Calendar.IsoWeekUnique | main.py:152 | a day lies in at most one ISO (year, week) |
| Calendar.IsoWeekExists | main.py:152 | every valid date lies in some ISO (year, week), the one `isocalendar()` names |
| Calendar.SameIsoWeekIffSameMonday | main.py:152 | two days have the same ISO year and week exactly when they share their Monday |
| Calendar.Week1MondayMonotone | main.py:152 | the first Monday of ISO week 1 never comes earlier for a later year, so ISO years follow calendar order |
| Calendar.IsoCalendarNewYear2024 | main.py:152 | 2024-01-01 is Monday of ISO week 1 of 2024 |
| Calendar.IsoCalendarNewYearsEve2023 | main.py:152 | 2023-12-31 is Sunday of ISO week 52 of 2023 |
| Calendar.IsoCalendarLateDecember2024 | main.py:152 | 2024-12-30 is Monday of ISO week 1 of 2025 |
| PeriodKeys.WeekKeyShape | main.py:152 | the weekly label is the unpadded calendar year, `-W`, and the ISO week number (1 to 53) in two digits |
| PeriodKeys.WeekKeySameIff | main.py:152 | two date-times share a weekly label exactly when they share the calendar year and the ISO week number |
| PeriodKeys.WeekKeyExamples | main.py:152 | 2024-01-01 is labelled `2024-W01` and 2023-12-31 is labelled `2023-W52` |
| PeriodKeys.WeekKeyMergesDistinctWeeks | main.py:152 | as written, 2024-01-01 and 2024-12-30 get the same label `2024-W01` though their weeks differ, and that label sorts before 2024-01-08's `2024-W02` |
| PeriodKeys.IsoWeekKeySameIffSameWeek | main.py:152 | with the ISO year in the label, two date-times share a weekly label exactly when they fall in the same Monday-to-Sunday week |
| PeriodKeys.MonthKeyExample | main.py:153 | `2024-03-15 10:00:00` is labelled `2024-03 (March)` |
| PeriodKeys.MonthKeyOrder | main.py:153 | monthly labels sort in calendar order, and two are equal exactly when year and month are |
| Ledger.Where | main.py:214 | `WHERE` keeps each row the condition holds for, as often as it occurs, and no other row |
| Ledger.OrderByDate | main.py:69 | `ORDER BY date [DESC]` returns the same rows, sorted on the date text |
| Ledger.SumOfOrder | main.py:69 | sorting the rows changes no sum over them |
| Ledger.SumOfWhere | main.py:246-249 | the sum over the selected rows is the sum over all rows with the rest counted as zero |
| Ledger.GrandTotal | main.py:81-87 | the `total += amount` loop ends with the sum of the amounts of the rows |
| Buckets.TotalsKeys | main.py:155-163 | insert-or-add leaves exactly the keys of the entries in the dictionary |
| Buckets.TotalsAreSums | main.py:155-163 | each dictionary value is the sum of the amounts entered under its key |
| Buckets.TotalsConserve | main.py:155-163 | the dictionary's values add up to the sum of all entered amounts |
| Buckets.SortedItems | main.py:170 | `sorted(d.items())` lists every key of d once, in strictly increasing order, with its value |
| Buckets.SortedItemsSum | main.py:174 | the sorted listing adds up to the dictionary's total |
| Buckets.UnplacedRowSkipped | main.py:165-166 | a row placed in no bucket adds nothing, and the rows after it are still counted |
| Buckets.BucketsMeaning | main.py:155-163 | the buckets are exactly those of the rows; each holds the sum of its rows' amounts; all of them add up to the placed rows' amounts |
| Buckets.BucketsReordered | main.py:136 | fetching the rows in another order fills the same buckets with the same sums |
| Trends.UnreadableRowSkipped | main.py:148-166 | a row whose date raises ValueError in `strptime` is in neither dictionary, and later rows are still processed |
| Trends.InsertOrAdd | main.py:155-158 | `d[k] += amount` when k is present, `d[k] = amount` otherwise: one entry added to d |
| Trends.BucketTotals | main.py:145-166 | the loop leaves, in each dictionary, the insert-or-add totals of the rows whose date reads |
| Trends.AnalyzeSpendingTrends | main.py:132-175 | nothing to report for an empty table; otherwise the weekly and monthly summaries of the rows fetched in date order, each listed in ascending label order |
| Trends.IsoWeekBucketsAreWeeks | main.py:152 | with the ISO year, two readable rows share a weekly bucket exactly when they fall in the same Monday-to-Sunday week |
| Trends.SummariesMeaning | main.py:145-175 | each summary lists each bucket of the table once, in ascending order, with the sum of its rows' amounts, and adds up to the amounts of all rows whose date reads |
| Trends.AllDatesRead | main.py:148-150 | when every date reads, the summaries add up to the whole table |
| Queries.ShowAllExpenses | main.py:65-90 | no history for an empty table; otherwise every row, newest first, with the total of all amounts |
| Queries.HistoryMeaning | main.py:69 | the history lists every row of the table once, newest first, and its total is the table's total |
| Queries.CategoryBreakdown | main.py:96-102 | no groups exactly for an empty table; otherwise one group per category present, each holding the sum of that category's amounts; the groups add up to the table's total; for rows the tracker wrote, every group is a fixed label |
| Queries.CategoryMatches | main.py:214 | the category filter returns exactly the rows of that category, newest first |
| Queries.RangeMatches | main.py:230 | the date filter returns exactly the rows with `lo <= date <= hi` in text order, both ends included, newest first |
| Queries.SearchExpenses | main.py:200-251 | choice 1 filters by a taken category and refuses any other category answer; choice 2 filters by the widened date bounds; any other choice is refused; an empty selection is reported as no match, otherwise the rows are shown with their total |
| Queries.CategorySearchMeaning | main.py:212-215 | the category search finds exactly the rows of that category, and its total equals that category's breakdown total |
| Queries.RangeSearchTotal | main.py:246-249 | the date search's total is the sum of the amounts of the rows in range |
| Queries.StartBound | main.py:227 | a timestamp is at or after `start + " 00:00:00"` exactly when its day is not before the start day |
| Queries.EndBound | main.py:228 | a timestamp is at or before `end + " 23:59:59"` exactly when its day is not after the end day |
| Queries.RangeIsDays | main.py:223-232 | for `YYYY-MM-DD` answers, a readable row is in range exactly when its day lies between the two days, both included, whatever its time |
| Queries.JanuaryRange | main.py:227-230 | for 2024-01-01 to 2024-01-31, `2024-01-31 23:59:59` is in range and `2024-02-01 00:00:00` is not |
| Queries.BlankStartIsNoLimit | main.py:223-230 | the bounds are not checked: a blank start answer admits every date |

## Left out

- SQLite plumbing is not modelled: `create_database`, connections, `commit` and the `INSERT` itself. Each query is modelled by its meaning over a sequence of rows. `NewExpense` gives the row the insert would write.
- The `id` column is not modelled. It is never read by the reporting logic.
- Console I/O is not modelled: prompts, `print` formatting and `$…:.2f` rendering. Nor are the `input()` retry loops of `add_new_expense` or the menu loop `run_expense_tracker`. The model takes one answer per prompt; an answer the prompt would ask again for becomes an error value.
- matplotlib charts are not modelled (main.py:106-130, main.py:177-198). They hold no logic.
- `datetime.now()` becomes a parameter, because it is not deterministic. So does the `float()` parse of the amount text: only its result, a `Float` or a raised ValueError, enters the model.
- Float arithmetic on `REAL` amounts and its rounding are not modelled. Amounts are exact reals.
- Timestamp.Parse: `strptime` is more lenient than the model. It accepts fields without zero padding. The blank in its format matches any run of whitespace, so two spaces or a tab between date and time also parse. Its digit pattern also matches non-ASCII digits. The model reads only the fixed-width ASCII form that the tracker writes.
- PeriodKeys.MonthKey: `%B` is taken as English month names. `%Y` is taken as four zero-padded digits; some platforms leave years below 1000 unpadded.
- Text.Strip and Text.Capitalize: Unicode whitespace and Unicode case mapping are not modelled. Only ASCII is.
- Ledger.OrderByDate: SQLite leaves the order of rows with equal dates open. The model keeps them in table order. The ensures of `Queries.ShowAllExpenses`, `Queries.SearchExpenses` and `Trends.AnalyzeSpendingTrends` name this one order; `Queries.HistoryMeaning` and the ensures of `Queries.CategoryMatches` and `Queries.RangeMatches` hold for any order of equal dates.
- Queries.CategoryBreakdown: the order in which SQLite returns the groups is not modelled. The groups are a map.
- Validation.NewExpense: uses the intended amount check, so it refuses the answers `nan` and `inf`, which the program takes (main.py:42-46). The program then stores `inf` as the amount; its INSERT of `nan` fails, because SQLite binds NaN as NULL against `amount REAL NOT NULL` (main.py:20), and the menu prints the error (main.py:291-292). An `Expense.amount` is a real number, so the model has no row with an infinite amount.

## Findings

| source | as written | input that shows it | evidently intended | confidence | as-written member | corrected member |
|---|---|---|---|---|---|---|
| main.py:42-46 | the amount is refused only when `float()` raises or `amount <= 0`; every comparison with NaN is false | `inf` is taken and stored as the amount; `nan` also passes the check, but its INSERT fails | only positive, finite amounts are taken | not executed | Validation.AmountCheckAsWrittenAccepts | Validation.CheckAmount |
| main.py:152 | the weekly label uses the calendar year `expense_date.year` with the ISO week number | 2024-12-30 lies in ISO week 1 of 2025 but is labelled `2024-W01`, the same as 2024-01-01; that label also sorts before `2024-W02` | label each ISO week by its ISO week-numbering year (`2025-W01`), so that one label is one week | not executed | PeriodKeys.WeekKeyMergesDistinctWeeks | PeriodKeys.IsoWeekKeySameIffSameWeek |

`Validation.NewExpense` uses the corrected amount check.

The trend analysis (`Trends.BucketTotals`) keeps the label as written, because that label is what the program prints. The corrected bucketing is `Trends.Period.IsoWeek`; `Trends.IsoWeekBucketsAreWeeks` proves it groups rows by week.
