/**
 * Proleptic Gregorian calendar arithmetic on day ordinals (day 1 is
 * 0001-01-01, a Monday) and the ISO 8601 week calendar, computed the way
 * Python's `date.isocalendar()` computes it.
 */
module Calendar {

  predicate IsLeapYear(y: int)
  {
    y % 4 == 0 && (y % 100 != 0 || y % 400 == 0)
  }

  function DaysInYear(y: int): int
  {
    if IsLeapYear(y) then 366 else 365
  }

  function DaysInMonth(y: int, m: int): int
    requires 1 <= m <= 12
  {
    if m == 2 then (if IsLeapYear(y) then 29 else 28)
    else if m == 4 || m == 6 || m == 9 || m == 11 then 30
    else 31
  }

  /** Days in the months of year `y` before month `m`. */
  function DaysBeforeMonth(y: int, m: int): int
    requires 1 <= m <= 12
  {
    var table := [0, 31, 59, 90, 120, 151, 181, 212, 243, 273, 304, 334];
    table[m - 1] + (if m > 2 && IsLeapYear(y) then 1 else 0)
  }

  /** Days before January 1 of year `y`, counted from 0001-01-01 (floor division throughout). */
  function DaysBeforeYear(y: int): int
  {
    var p := y - 1;
    p * 365 + p / 4 - p / 100 + p / 400
  }

  /** A date the calendar (and Python's `date`, years 1 to 9999) admits. */
  predicate ValidDate(y: int, m: int, d: int)
  {
    1 <= y <= 9999 && 1 <= m <= 12 && 1 <= d <= DaysInMonth(y, m)
  }

  /** The day number of a date; 0001-01-01 is day 1. */
  function Ordinal(y: int, m: int, d: int): int
    requires 1 <= m <= 12
  {
    DaysBeforeYear(y) + DaysBeforeMonth(y, m) + d
  }

  /** Day of the week of a day number: 0 for Monday up to 6 for Sunday. */
  function Weekday(n: int): int
  {
    (n + 6) % 7
  }

  /** The Monday that starts ISO week 1 of year `y`: the week holding the year's first Thursday. */
  function Week1Monday(y: int): int
  {
    var first := Ordinal(y, 1, 1);
    var firstWeekday := Weekday(first);
    var monday := first - firstWeekday;
    if firstWeekday > 3 then monday + 7 else monday
  }

  /** ISO year, week number (1 to 53) and weekday (1 for Monday to 7 for Sunday). */
  datatype IsoDate = IsoDate(year: int, week: int, weekday: int)

  /** Python's `date(y, m, d).isocalendar()`. */
  function IsoCalendar(y: int, m: int, d: int): IsoDate
    requires ValidDate(y, m, d)
  {
    IsoFromDays(y, Ordinal(y, m, d), Week1Monday(y - 1), Week1Monday(y), Week1Monday(y + 1))
  }

  /**
   * The day-number steps of `isocalendar()` for day `today` of calendar year
   * `y`, given the week-1 Mondays of `y - 1`, `y` and `y + 1`: count weeks
   * from week 1 of `y`; before it, count from week 1 of `y - 1`; from week 53
   * on, a day on or after week 1 of `y + 1` is in that year's week 1.
   */
  function IsoFromDays(y: int, today: int, prior: int, week1: int, following: int): IsoDate
  {
    var week, day := (today - week1) / 7, (today - week1) % 7;
    if week < 0 then
      IsoDate(y - 1, (today - prior) / 7 + 1, (today - prior) % 7 + 1)
    else if week >= 52 && today >= following then
      IsoDate(y + 1, 1, day + 1)
    else
      IsoDate(y, week + 1, day + 1)
  }

  /**
   * The ISO 8601 definition of "day `n` lies in week `w` of ISO year `iy`":
   * the week is the `w`-th Monday-to-Sunday run counted from the Monday of
   * week 1 of `iy`, and the day comes before week 1 of the following year.
   */
  predicate InIsoWeek(n: int, iy: int, w: int)
  {
    InWeekFrom(n, Week1Monday(iy), Week1Monday(iy + 1), w)
  }

  /** Day `n` is in the `w`-th week counted from Monday `start`, and before `stop`. */
  predicate InWeekFrom(n: int, start: int, stop: int, w: int)
  {
    1 <= w && start + 7 * (w - 1) <= n < start + 7 * w && n < stop
  }

  /** The leap-year rule and the closed formula for the days before a year agree. */
  lemma DaysBeforeYearStep(y: int)
    ensures DaysBeforeYear(y + 1) == DaysBeforeYear(y) + DaysInYear(y)
  {
    LeapDivStep4(y);
    LeapDivStep100(y);
    LeapDivStep400(y);
  }

  /** The counts of multiples of 4, 100 and 400 below `y` grow by one exactly at such multiples. */
  lemma LeapDivStep4(y: int)
    ensures y / 4 == (y - 1) / 4 + (if y % 4 == 0 then 1 else 0)
  {
    assert y - 1 == 4 * ((y - 1) / 4) + (y - 1) % 4;
  }

  lemma LeapDivStep100(y: int)
    ensures y / 100 == (y - 1) / 100 + (if y % 100 == 0 then 1 else 0)
  {
    assert y - 1 == 100 * ((y - 1) / 100) + (y - 1) % 100;
  }

  lemma LeapDivStep400(y: int)
    ensures y / 400 == (y - 1) / 400 + (if y % 400 == 0 then 1 else 0)
  {
    assert y - 1 == 400 * ((y - 1) / 400) + (y - 1) % 400;
  }

  /** Every valid date falls within its own year's run of day numbers. */
  lemma OrdinalInYear(y: int, m: int, d: int)
    requires ValidDate(y, m, d)
    ensures DaysBeforeYear(y) < Ordinal(y, m, d) <= DaysBeforeYear(y + 1)
  {
    DaysBeforeYearStep(y);
  }

  /** Week 1 starts on a Monday and holds the year's first Thursday. */
  lemma Week1MondayFacts(y: int)
    ensures Weekday(Week1Monday(y)) == 0
    ensures Ordinal(y, 1, 1) <= Week1Monday(y) + 3 < Ordinal(y, 1, 1) + 7
  {
    FirstThursdayWeek(Ordinal(y, 1, 1));
  }

  /** The Monday-to-Sunday week that holds the first Thursday on or after day `first`. */
  lemma FirstThursdayWeek(first: int)
    ensures var monday := first - Weekday(first);
      var w1 := if Weekday(first) > 3 then monday + 7 else monday;
      Weekday(w1) == 0 && first <= w1 + 3 < first + 7
  {
    var q, r := (first + 6) / 7, (first + 6) % 7;
    assert first + 6 == 7 * q + r && 0 <= r < 7;
    assert first - Weekday(first) == 7 * q - 6;
    MultipleOfSevenIsMonday(q);
    MultipleOfSevenIsMonday(q + 1);
  }

  /** Day number `7 * q - 6` is a Monday. */
  lemma MultipleOfSevenIsMonday(q: int)
    ensures Weekday(7 * q - 6) == 0
  {
    assert 7 * q - 6 + 6 == 7 * q;
  }

  /** Counting days from any Monday gives the weekday. */
  lemma WeekdayFromMonday(n: int, monday: int)
    requires Weekday(monday) == 0
    ensures (n - monday) % 7 == Weekday(n)
  {
    var q, r := (n - monday) / 7, (n - monday) % 7;
    var k := (monday + 6) / 7;
    assert n - monday == 7 * q + r && monday + 6 == 7 * k;
    assert n + 6 == 7 * (q + k) + r;
  }

  /** Consecutive ISO years are 52 or 53 weeks long. */
  lemma Week1MondaySpacing(y: int)
    ensures Week1Monday(y + 1) - Week1Monday(y) == 364
         || Week1Monday(y + 1) - Week1Monday(y) == 371
  {
    DaysBeforeYearStep(y);
    var a, b := Week1Monday(y), Week1Monday(y + 1);
    Week1MondayFacts(y);
    Week1MondayFacts(y + 1);
    var qa, qb := (a + 6) / 7, (b + 6) / 7;
    assert a == 7 * qa - 6 && b == 7 * qb - 6;
    assert 359 <= b - a <= 372;
    assert 51 < qb - qa < 54;
  }

  /** Week-1 Mondays grow with the year. */
  lemma {:induction false} Week1MondayMonotone(a: int, b: int)
    requires a < b
    ensures Week1Monday(a + 1) <= Week1Monday(b)
    decreases b - a
  {
    if a + 1 < b {
      Week1MondayMonotone(a, b - 1);
      Week1MondaySpacing(b - 1);
    }
  }

  /**
   * The day-number arithmetic behind `isocalendar()`: `w0`, `w1`, `w2`, `w3`
   * are the week-1 Mondays of four consecutive years, `first` and `next` the
   * first days of the second and third of them.
   */
  lemma IsoWeekArithmetic(today: int, first: int, next: int, w0: int, w1: int, w2: int, w3: int)
    requires first <= today < next
    requires first - 3 <= w1 <= first + 3 && next - 3 <= w2 <= next + 3
    requires w1 - w0 == 364 || w1 - w0 == 371
    requires w2 - w1 == 364 || w2 - w1 == 371
    requires w3 - w2 == 364 || w3 - w2 == 371
    ensures var week := (today - w1) / 7;
      if week < 0 then
        var k := (today - w0) / 7;
        0 <= k <= 52 && w0 + 7 * k <= today < w0 + 7 * k + 7 && today < w1
      else if week >= 52 && today >= w2 then
        today < w2 + 7 && today < w3
      else
        week <= 52 && w1 + 7 * week <= today < w1 + 7 * week + 7 && today < w2
  {
  }

  /** `isocalendar()` meets the ISO 8601 week definition, and its week number is 1 to 53. */
  lemma IsoCalendarIsIsoWeek(y: int, m: int, d: int)
    requires ValidDate(y, m, d)
    ensures var r := IsoCalendar(y, m, d);
      && InIsoWeek(Ordinal(y, m, d), r.year, r.week)
      && 1 <= r.week <= 53
      && r.weekday == Weekday(Ordinal(y, m, d)) + 1
      && y - 1 <= r.year <= y + 1
  {
    var today := Ordinal(y, m, d);
    var r := IsoCalendar(y, m, d);
    IsoCalendarSteps(y, m, d);
    InIsoWeekAround(today, r.year, r.week, y);
  }

  /** A day placed in week `w` counted from the week-1 Monday of `y - 1`, `y` or `y + 1` is in that ISO week. */
  lemma InIsoWeekAround(n: int, iy: int, w: int, y: int)
    requires y - 1 <= iy <= y + 1
    requires iy == y - 1 ==> InWeekFrom(n, Week1Monday(y - 1), Week1Monday(y), w)
    requires iy == y ==> InWeekFrom(n, Week1Monday(y), Week1Monday(y + 1), w)
    requires iy == y + 1 ==> InWeekFrom(n, Week1Monday(y + 1), Week1Monday(y + 2), w)
    ensures InIsoWeek(n, iy, w)
  {
    if iy == y - 1 {
      assert iy + 1 == y;
    } else if iy == y + 1 {
      assert iy + 1 == y + 2;
    }
  }

  /** IsoFromDaysPlaces for the week-1 Mondays around a valid date. */
  lemma IsoCalendarSteps(y: int, m: int, d: int)
    requires ValidDate(y, m, d)
    ensures var today, r := Ordinal(y, m, d), IsoCalendar(y, m, d);
      var w0, w1, w2, w3 := Week1Monday(y - 1), Week1Monday(y), Week1Monday(y + 1), Week1Monday(y + 2);
      && y - 1 <= r.year <= y + 1
      && (r.year == y - 1 ==> InWeekFrom(today, w0, w1, r.week))
      && (r.year == y ==> InWeekFrom(today, w1, w2, r.week))
      && (r.year == y + 1 ==> InWeekFrom(today, w2, w3, r.week))
      && 1 <= r.week <= 53
      && r.weekday == Weekday(today) + 1
  {
    OrdinalInYear(y, m, d);
    Week1MondayFacts(y - 1);
    Week1MondayFacts(y);
    Week1MondayFacts(y + 1);
    Week1MondaySpacing(y - 1);
    Week1MondaySpacing(y);
    Week1MondaySpacing(y + 1);
    IsoFromDaysPlaces(y, Ordinal(y, m, d), Ordinal(y, 1, 1), Ordinal(y + 1, 1, 1),
      Week1Monday(y - 1), Week1Monday(y), Week1Monday(y + 1), Week1Monday(y + 2));
  }

  /**
   * The day-number steps of `isocalendar()` place the day in the week they
   * name, counted from the week-1 Monday of the year they name.
   */
  lemma IsoFromDaysPlaces(y: int, today: int, first: int, next: int, w0: int, w1: int, w2: int, w3: int)
    requires first <= today < next
    requires Weekday(w0) == 0 && Weekday(w1) == 0
    requires first - 3 <= w1 <= first + 3 && next - 3 <= w2 <= next + 3
    requires w1 - w0 == 364 || w1 - w0 == 371
    requires w2 - w1 == 364 || w2 - w1 == 371
    requires w3 - w2 == 364 || w3 - w2 == 371
    ensures var r := IsoFromDays(y, today, w0, w1, w2);
      && y - 1 <= r.year <= y + 1
      && (r.year == y - 1 ==> InWeekFrom(today, w0, w1, r.week))
      && (r.year == y ==> InWeekFrom(today, w1, w2, r.week))
      && (r.year == y + 1 ==> InWeekFrom(today, w2, w3, r.week))
      && 1 <= r.week <= 53
      && r.weekday == Weekday(today) + 1
  {
    IsoWeekArithmetic(today, first, next, w0, w1, w2, w3);
    if (today - w1) / 7 < 0 {
      WeekdayFromMonday(today, w0);
    } else {
      WeekdayFromMonday(today, w1);
    }
  }

  /** A day lies in at most one ISO week. */
  lemma IsoWeekUnique(n: int, iy1: int, w1: int, iy2: int, w2: int)
    requires InIsoWeek(n, iy1, w1) && InIsoWeek(n, iy2, w2)
    ensures iy1 == iy2 && w1 == w2
  {
    if iy1 < iy2 {
      Week1MondayMonotone(iy1, iy2);
    } else if iy2 < iy1 {
      Week1MondayMonotone(iy2, iy1);
    }
  }

  /** Every valid date lies in some ISO week: the one `isocalendar()` names. */
  lemma IsoWeekExists(y: int, m: int, d: int)
    requires ValidDate(y, m, d)
    ensures exists iy, w :: InIsoWeek(Ordinal(y, m, d), iy, w)
  {
    IsoCalendarIsIsoWeek(y, m, d);
    var r := IsoCalendar(y, m, d);
    assert InIsoWeek(Ordinal(y, m, d), r.year, r.week);
  }

  /** The Monday that starts the Monday-to-Sunday week of day `n`. */
  function MondayOf(n: int): int
  {
    n - Weekday(n)
  }

  lemma MondayPlusWeeks(monday: int, weeks: int)
    requires Weekday(monday) == 0
    ensures Weekday(monday + 7 * weeks) == 0
  {
    var k := (monday + 6) / 7;
    assert monday + 6 == 7 * k;
    assert monday + 7 * weeks + 6 == 7 * (k + weeks);
  }

  /** A day's week starts at the Monday at most six days before it. */
  lemma MondayOfWithin(n: int, monday: int)
    requires Weekday(monday) == 0 && monday <= n < monday + 7
    ensures MondayOf(n) == monday
  {
    WeekdayFromMonday(n, monday);
  }

  /** Two days share an ISO week exactly when they share a Monday. */
  lemma SameIsoWeekIffSameMonday(n1: int, iy1: int, w1: int, n2: int, iy2: int, w2: int)
    requires InIsoWeek(n1, iy1, w1) && InIsoWeek(n2, iy2, w2)
    ensures (iy1 == iy2 && w1 == w2) <==> MondayOf(n1) == MondayOf(n2)
  {
    var a1, a2 := Week1Monday(iy1), Week1Monday(iy2);
    Week1MondayFacts(iy1);
    Week1MondayFacts(iy2);
    var m1, m2 := a1 + 7 * (w1 - 1), a2 + 7 * (w2 - 1);
    MondayPlusWeeks(a1, w1 - 1);
    MondayPlusWeeks(a2, w2 - 1);
    MondayOfWithin(n1, m1);
    MondayOfWithin(n2, m2);
    if m1 == m2 {
      assert InIsoWeek(m1, iy1, w1) && InIsoWeek(m1, iy2, w2);
      IsoWeekUnique(m1, iy1, w1, iy2, w2);
    }
  }

  /** 2024-01-01 is a Monday and opens week 1 of 2024. */
  lemma IsoCalendarNewYear2024()
    ensures IsoCalendar(2024, 1, 1) == IsoDate(2024, 1, 1)
  {
    assert DaysBeforeYear(2024) == 738885;
    assert Week1Monday(2024) == 738886;
  }

  /** 2023-12-31 is a Sunday and closes week 52 of 2023. */
  lemma IsoCalendarNewYearsEve2023()
    ensures IsoCalendar(2023, 12, 31) == IsoDate(2023, 52, 7)
  {
    assert DaysBeforeYear(2023) == 738520;
    assert Ordinal(2023, 12, 31) == 738885;
    assert Week1Monday(2023) == 738522;
  }

  /** 2024-12-30 is a Monday that already belongs to week 1 of ISO year 2025. */
  lemma IsoCalendarLateDecember2024()
    ensures IsoCalendar(2024, 12, 30) == IsoDate(2025, 1, 1)
  {
    assert DaysBeforeYear(2024) == 738885;
    assert DaysBeforeYear(2025) == 739251;
    assert Ordinal(2024, 12, 30) == 739250;
    assert Week1Monday(2024) == 738886;
    assert Week1Monday(2025) == 739250;
  }

  /** 2024-01-08 opens week 2 of 2024. */
  lemma IsoCalendarSecondWeek2024()
    ensures IsoCalendar(2024, 1, 8) == IsoDate(2024, 2, 1)
  {
    assert DaysBeforeYear(2024) == 738885;
    assert Week1Monday(2024) == 738886;
  }

  /** 2024-01-01 and 2024-12-30 are Mondays 364 days apart. */
  lemma Mondays2024()
    ensures Ordinal(2024, 1, 1) == 738886 && MondayOf(738886) == 738886
    ensures Ordinal(2024, 12, 30) == 739250 && MondayOf(739250) == 739250
  {
    assert DaysBeforeYear(2024) == 738885;
  }
}
