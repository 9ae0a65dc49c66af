/**
 * The bucket labels of the weekly and monthly spending summaries:
 * `f"{d.year}-W{d.isocalendar()[1]:02d}"` and `d.strftime("%Y-%m (%B)")`,
 * with English month names.
 */
module PeriodKeys {
  import opened Digits
  import opened Lex
  import opened Timestamp
  import Calendar

  /** `%B` in an English locale. */
  function MonthName(m: nat): string
    requires 1 <= m <= 12
  {
    ["January", "February", "March", "April", "May", "June", "July",
     "August", "September", "October", "November", "December"][m - 1]
  }

  /** The day number of the date part of `t`. */
  function DayNumber(t: DateTime): int
    requires Valid(t)
  {
    Calendar.Ordinal(t.year, t.month, t.day)
  }

  /** `t.isocalendar()`. */
  function IsoWeekOf(t: DateTime): Calendar.IsoDate
    requires Valid(t)
  {
    Calendar.IsoCalendar(t.year, t.month, t.day)
  }

  /** `{year}-W{week:02d}`: an unpadded year, then a two-digit week. */
  function YearWeekLabel(year: nat, week: nat): string
  {
    Decimal(year) + "-W" + Pad(week, 2)
  }

  /**
   * The weekly bucket of `t` as the tracker writes it: the CALENDAR year of
   * `t` with the ISO week number.
   */
  function WeekKey(t: DateTime): string
    requires Valid(t)
  {
    Calendar.IsoCalendarIsIsoWeek(t.year, t.month, t.day);
    YearWeekLabel(t.year, IsoWeekOf(t).week)
  }

  /** The weekly bucket with the ISO week-numbering year in place of the calendar year. */
  function IsoWeekKey(t: DateTime): string
    requires Valid(t)
  {
    Calendar.IsoCalendarIsIsoWeek(t.year, t.month, t.day);
    YearWeekLabel(IsoWeekOf(t).year, IsoWeekOf(t).week)
  }

  /** The monthly bucket of `t`: `YYYY-MM (MonthName)`. */
  function MonthKey(t: DateTime): string
    requires Valid(t)
  {
    Pad(t.year, 4) + "-" + Pad(t.month, 2) + " (" + MonthName(t.month) + ")"
  }

  /** The weekly key is the unpadded calendar year, `-W`, and the ISO week number, 1 to 53, in two digits. */
  lemma WeekKeyShape(t: DateTime)
    requires Valid(t)
    ensures 1 <= IsoWeekOf(t).week <= 53
    ensures WeekKey(t) == Decimal(t.year) + "-W" + Pad(IsoWeekOf(t).week, 2)
    ensures DigitsValue(WeekKey(t)[|WeekKey(t)| - 2..]) == IsoWeekOf(t).week
  {
    Calendar.IsoCalendarIsIsoWeek(t.year, t.month, t.day);
    var k := WeekKey(t);
    assert k[|k| - 2..] == Pad(IsoWeekOf(t).week, 2);
    PadValue(IsoWeekOf(t).week, 2);
  }

  /** A year-week label names one year and one week (weeks below 100). */
  lemma YearWeekLabelInjective(y1: nat, w1: nat, y2: nat, w2: nat)
    requires w1 < 100 && w2 < 100
    requires YearWeekLabel(y1, w1) == YearWeekLabel(y2, w2)
    ensures y1 == y2 && w1 == w2
  {
    var k := YearWeekLabel(y1, w1);
    assert Decimal(y1) == k[..|k| - 4] == Decimal(y2);
    assert Pad(w1, 2) == k[|k| - 2..] == Pad(w2, 2);
    DecimalInjective(y1, y2);
    PadInjective(w1, w2, 2);
  }

  /** Two date-times share a weekly bucket exactly when they share the calendar year and the ISO week number. */
  lemma WeekKeySameIff(t: DateTime, u: DateTime)
    requires Valid(t) && Valid(u)
    ensures WeekKey(t) == WeekKey(u) <==> t.year == u.year && IsoWeekOf(t).week == IsoWeekOf(u).week
  {
    Calendar.IsoCalendarIsIsoWeek(t.year, t.month, t.day);
    Calendar.IsoCalendarIsIsoWeek(u.year, u.month, u.day);
    if WeekKey(t) == WeekKey(u) {
      YearWeekLabelInjective(t.year, IsoWeekOf(t).week, u.year, IsoWeekOf(u).week);
    }
  }

  /**
   * As written, one weekly bucket collects two different weeks: Monday
   * 2024-01-01 (week 1 of 2024) and Monday 2024-12-30 (week 1 of 2025) both
   * get `2024-W01`, which also sorts before the `2024-W02` of 2024-01-08.
   */
  lemma WeekKeyMergesDistinctWeeks()
    ensures var jan1, dec30, jan8 := DateTime(2024, 1, 1, 0, 0, 0), DateTime(2024, 12, 30, 0, 0, 0), DateTime(2024, 1, 8, 0, 0, 0);
      && WeekKey(jan1) == WeekKey(dec30) == "2024-W01"
      && Calendar.MondayOf(DayNumber(jan1)) != Calendar.MondayOf(DayNumber(dec30))
      && WeekKey(jan8) == "2024-W02"
      && LexLt(WeekKey(dec30), WeekKey(jan8))
  {
    Calendar.IsoCalendarNewYear2024();
    Calendar.IsoCalendarLateDecember2024();
    Calendar.IsoCalendarSecondWeek2024();
    Calendar.Mondays2024();
    Labels2024();
  }

  lemma Labels2024()
    ensures YearWeekLabel(2024, 1) == "2024-W01"
    ensures YearWeekLabel(2024, 2) == "2024-W02"
    ensures LexLt("2024-W01", "2024-W02")
  {
    Decimal2024();
    WeekPads();
    Week01BeforeWeek02();
  }

  lemma WeekPads()
    ensures Pad(1, 2) == "01" && Pad(2, 2) == "02" && Pad(52, 2) == "52"
  {
    PadTwo(1);
    PadTwo(2);
    PadTwo(52);
  }

  lemma Week01BeforeWeek02()
    ensures LexLt("2024-W01", "2024-W02")
  {
    assert LexLe("1", "2");
    assert "2024-W0" + "1" == "2024-W01" && "2024-W0" + "2" == "2024-W02";
    LexLeAppend("2024-W0", "1", "2024-W0", "2");
  }

  lemma Decimal2024()
    ensures Decimal(2024) == "2024"
  {
    DecimalIsPad4(2024);
    PadFour(2024);
  }

  /** With the ISO year, two date-times share a weekly bucket exactly when they fall in the same Monday-to-Sunday week. */
  lemma IsoWeekKeySameIffSameWeek(t: DateTime, u: DateTime)
    requires Valid(t) && Valid(u)
    ensures IsoWeekKey(t) == IsoWeekKey(u) <==> Calendar.MondayOf(DayNumber(t)) == Calendar.MondayOf(DayNumber(u))
  {
    Calendar.IsoCalendarIsIsoWeek(t.year, t.month, t.day);
    Calendar.IsoCalendarIsIsoWeek(u.year, u.month, u.day);
    var it, iu := IsoWeekOf(t), IsoWeekOf(u);
    Calendar.SameIsoWeekIffSameMonday(DayNumber(t), it.year, it.week, DayNumber(u), iu.year, iu.week);
    if IsoWeekKey(t) == IsoWeekKey(u) {
      YearWeekLabelInjective(it.year, it.week, iu.year, iu.week);
    }
  }

  lemma WeekKeyExamples()
    ensures WeekKey(DateTime(2024, 1, 1, 0, 0, 0)) == "2024-W01"
    ensures WeekKey(DateTime(2023, 12, 31, 0, 0, 0)) == "2023-W52"
  {
    Calendar.IsoCalendarNewYear2024();
    Calendar.IsoCalendarNewYearsEve2023();
    Labels2024();
    Label2023();
  }

  lemma Label2023()
    ensures YearWeekLabel(2023, 52) == "2023-W52"
  {
    Decimal2023();
    WeekPads();
    assert "2023" + "-W" + "52" == "2023-W52";
  }

  lemma Decimal2023()
    ensures Decimal(2023) == "2023"
  {
    DecimalIsPad4(2023);
    PadFour(2023);
  }

  lemma MonthKeyExample()
    ensures MonthKey(DateTime(2024, 3, 15, 10, 0, 0)) == "2024-03 (March)"
  {
    MarchFields();
    MarchJoin();
  }

  lemma MarchFields()
    ensures Pad(2024, 4) == "2024" && Pad(3, 2) == "03" && MonthName(3) == "March"
  {
    PadFour(2024);
    PadTwo(3);
  }

  lemma MarchJoin()
    ensures "2024" + "-" + "03" + " (" + "March" + ")" == "2024-03 (March)"
  {
  }

  /** Monthly keys sort in calendar order, and two keys are equal exactly when year and month are. */
  lemma MonthKeyOrder(t: DateTime, u: DateTime)
    requires Valid(t) && Valid(u)
    ensures LexLe(MonthKey(t), MonthKey(u)) <==> t.year < u.year || (t.year == u.year && t.month <= u.month)
    ensures MonthKey(t) == MonthKey(u) <==> t.year == u.year && t.month == u.month
  {
    var rt, ru := MonthName(t.month) + ")", MonthName(u.month) + ")";
    var mt, mu := Pad(t.month, 2) + " (" + rt, Pad(u.month, 2) + " (" + ru;
    assert MonthKey(t) == Pad(t.year, 4) + "-" + mt;
    assert MonthKey(u) == Pad(u.year, 4) + "-" + mu;
    FieldStep(t.month, u.month, 2, " (", rt, ru);
    FieldStep(t.year, u.year, 4, "-", mt, mu);
    if t.month == u.month {
      LexLeRefl(rt);
    }
    FieldStep(u.month, t.month, 2, " (", ru, rt);
    FieldStep(u.year, t.year, 4, "-", mu, mt);
    if MonthKey(t) == MonthKey(u) {
      LexLeRefl(MonthKey(t));
    }
    if LexLe(MonthKey(t), MonthKey(u)) && LexLe(MonthKey(u), MonthKey(t)) {
      LexLeAntisymmetric(MonthKey(t), MonthKey(u));
    }
  }
}
