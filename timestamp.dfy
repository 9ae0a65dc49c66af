/**
 * The stored timestamp text `YYYY-MM-DD HH:MM:SS`: writing it
 * (`strftime("%Y-%m-%d %H:%M:%S")`), reading it back
 * (`datetime.strptime(s, "%Y-%m-%d %H:%M:%S")`), and how the text order of
 * two timestamps relates to their order in time.
 */
module Timestamp {
  import opened Wrappers
  import opened Digits
  import opened Lex
  import Calendar

  datatype DateTime = DateTime(year: nat, month: nat, day: nat, hour: nat, minute: nat, second: nat)

  /** A date-time Python's `datetime` accepts (no leap seconds). */
  predicate Valid(t: DateTime)
  {
    Calendar.ValidDate(t.year, t.month, t.day) && t.hour <= 23 && t.minute <= 59 && t.second <= 59
  }

  /** Every field fits its printed width. */
  predicate FieldsFit(t: DateTime)
  {
    t.year <= 9999 && t.month <= 99 && t.day <= 99 && t.hour <= 99 && t.minute <= 99 && t.second <= 99
  }

  /** `YYYY-MM-DD`. */
  function DateText(year: nat, month: nat, day: nat): string
  {
    Pad(year, 4) + "-" + Pad(month, 2) + "-" + Pad(day, 2)
  }

  /** ` HH:MM:SS`, with the blank that separates it from the date. */
  function TimeText(hour: nat, minute: nat, second: nat): string
  {
    " " + Pad(hour, 2) + ":" + Pad(minute, 2) + ":" + Pad(second, 2)
  }

  /** `t.strftime("%Y-%m-%d %H:%M:%S")`. */
  function Format(t: DateTime): string
  {
    DateText(t.year, t.month, t.day) + TimeText(t.hour, t.minute, t.second)
  }

  /** The six digit fields of a 19-character timestamp sit between the right separators. */
  predicate WellShaped(s: string)
  {
    |s| == 19 && s[4] == '-' && s[7] == '-' && s[10] == ' ' && s[13] == ':' && s[16] == ':'
    && AllDigits(s[0..4]) && AllDigits(s[5..7]) && AllDigits(s[8..10])
    && AllDigits(s[11..13]) && AllDigits(s[14..16]) && AllDigits(s[17..19])
  }

  /**
   * `datetime.strptime(s, "%Y-%m-%d %H:%M:%S")` on the fixed-width form;
   * None where it raises ValueError (wrong shape, or a date or time that
   * does not exist).
   */
  function Parse(s: string): (r: Option<DateTime>)
    ensures r.Some? ==> Valid(r.value)
  {
    if WellShaped(s) && Valid(Fields(s)) then Some(Fields(s)) else None
  }

  /** The numbers in the six digit fields of a well-shaped string. */
  function Fields(s: string): DateTime
    requires WellShaped(s)
  {
    DateTime(DigitsValue(s[0..4]), DigitsValue(s[5..7]), DigitsValue(s[8..10]),
             DigitsValue(s[11..13]), DigitsValue(s[14..16]), DigitsValue(s[17..19]))
  }

  /** The layout of a formatted timestamp, field by field. */
  lemma FormatLayout(t: DateTime)
    ensures var s := Format(t);
      && |s| == 19
      && s[0..4] == Pad(t.year, 4) && s[4] == '-'
      && s[5..7] == Pad(t.month, 2) && s[7] == '-'
      && s[8..10] == Pad(t.day, 2) && s[10] == ' '
      && s[11..13] == Pad(t.hour, 2) && s[13] == ':'
      && s[14..16] == Pad(t.minute, 2) && s[16] == ':'
      && s[17..19] == Pad(t.second, 2)
  {
  }

  /** Reading back what was written gives the same date-time. */
  lemma ParseFormat(t: DateTime)
    requires Valid(t)
    ensures Parse(Format(t)) == Some(t)
  {
    FormatLayout(t);
    PadValue(t.year, 4);
    PadValue(t.month, 2);
    PadValue(t.day, 2);
    PadValue(t.hour, 2);
    PadValue(t.minute, 2);
    PadValue(t.second, 2);
  }

  /** The date part of a well-shaped string is its three fields joined by `-`. */
  lemma DateSplit(s: string)
    requires WellShaped(s)
    ensures s[0..10] == s[0..4] + "-" + s[5..7] + "-" + s[8..10]
  {
  }

  /** The time part of a well-shaped string is a blank and its three fields joined by `:`. */
  lemma TimeSplit(s: string)
    requires WellShaped(s)
    ensures s[10..19] == " " + s[11..13] + ":" + s[14..16] + ":" + s[17..19]
  {
  }

  /** Writing out the date fields of a well-shaped string gives its date part back. */
  lemma DateTextOfFields(s: string)
    requires WellShaped(s)
    ensures DateText(Fields(s).year, Fields(s).month, Fields(s).day) == s[0..10]
  {
    DigitsPad(s[0..4]);
    DigitsPad(s[5..7]);
    DigitsPad(s[8..10]);
    DateSplit(s);
  }

  /** Writing out the time fields of a well-shaped string gives its time part back. */
  lemma TimeTextOfFields(s: string)
    requires WellShaped(s)
    ensures TimeText(Fields(s).hour, Fields(s).minute, Fields(s).second) == s[10..19]
  {
    DigitsPad(s[11..13]);
    DigitsPad(s[14..16]);
    DigitsPad(s[17..19]);
    TimeSplit(s);
  }

  /** Writing out the fields of a well-shaped string gives the string back. */
  lemma FormatFields(s: string)
    requires WellShaped(s)
    ensures Format(Fields(s)) == s
  {
    DateTextOfFields(s);
    TimeTextOfFields(s);
    assert s == s[0..10] + s[10..19];
  }

  /** Whatever reads as a date-time is exactly that date-time's written form. */
  lemma FormatParse(s: string)
    requires Parse(s).Some?
    ensures Valid(Parse(s).value) && Format(Parse(s).value) == s
  {
    FormatFields(s);
  }

  /** Parsing succeeds on exactly the written forms of valid date-times. */
  lemma ParseIffFormat(s: string, t: DateTime)
    ensures Parse(s) == Some(t) <==> Valid(t) && Format(t) == s
  {
    if Parse(s) == Some(t) {
      FormatParse(s);
    }
    if Valid(t) && Format(t) == s {
      ParseFormat(t);
    }
  }

  /** (y, m, d, H, M, S) tuples in time order. */
  predicate NotLater(t: DateTime, u: DateTime)
  {
    if t.year != u.year then t.year < u.year
    else if t.month != u.month then t.month < u.month
    else if t.day != u.day then t.day < u.day
    else if t.hour != u.hour then t.hour < u.hour
    else if t.minute != u.minute then t.minute < u.minute
    else t.second <= u.second
  }

  /** A padded field followed by a separator: the field decides unless equal. */
  lemma FieldStep(a: nat, b: nat, width: nat, sep: string, s: string, t: string)
    requires a < Pow10(width) && b < Pow10(width)
    ensures LexLe(Pad(a, width) + sep + s, Pad(b, width) + sep + t) <==> a < b || (a == b && LexLe(s, t))
  {
    var pa, pb := Pad(a, width), Pad(b, width);
    assert pa + sep + s == pa + (sep + s);
    assert pb + sep + t == pb + (sep + t);
    LexLeAppend(pa, sep + s, pb, sep + t);
    LexLeAppend(sep, s, sep, t);
    PadOrder(a, b, width);
    if pa == pb {
      PadInjective(a, b, width);
    }
  }

  /** A written timestamp as its fields nested right to left. */
  lemma FormatNested(t: DateTime)
    ensures Format(t) == Pad(t.year, 4) + "-" + (Pad(t.month, 2) + "-" + (Pad(t.day, 2) + " "
      + (Pad(t.hour, 2) + ":" + (Pad(t.minute, 2) + ":" + Pad(t.second, 2)))))
  {
  }

  /** The text order of written timestamps is their order in time. */
  lemma FormatOrder(t: DateTime, u: DateTime)
    requires FieldsFit(t) && FieldsFit(u)
    ensures LexLe(Format(t), Format(u)) <==> NotLater(t, u)
  {
    var ps, pu := Pad(t.second, 2), Pad(u.second, 2);
    PadLe(t.second, u.second, 2);
    var mt, mu := Pad(t.minute, 2) + ":" + ps, Pad(u.minute, 2) + ":" + pu;
    FieldStep(t.minute, u.minute, 2, ":", ps, pu);
    var ht, hu := Pad(t.hour, 2) + ":" + mt, Pad(u.hour, 2) + ":" + mu;
    FieldStep(t.hour, u.hour, 2, ":", mt, mu);
    var dt, du := Pad(t.day, 2) + " " + ht, Pad(u.day, 2) + " " + hu;
    FieldStep(t.day, u.day, 2, " ", ht, hu);
    var nt, nu := Pad(t.month, 2) + "-" + dt, Pad(u.month, 2) + "-" + du;
    FieldStep(t.month, u.month, 2, "-", dt, du);
    FieldStep(t.year, u.year, 4, "-", nt, nu);
    FormatNested(t);
    FormatNested(u);
  }
}
