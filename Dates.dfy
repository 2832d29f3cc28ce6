/**
 * The slice of java.time the exporter relies on: proleptic Gregorian
 * `LocalDate`s, `plusDays`, `getDayOfWeek`, `TemporalAdjusters.nextOrSame`
 * and the `yyyyMMdd'T'HHmmss` pattern.
 */
module Dates {
  import opened Options
  import opened Digits
  import opened Days
  import opened Clock

  datatype Date = Date(year: int, month: int, day: int)

  predicate IsLeapYear(y: int) {
    y % 4 == 0 && (y % 100 != 0 || y % 400 == 0)
  }

  function DaysInMonth(y: int, m: int): int
    requires 1 <= m <= 12
  {
    if m == 2 then (if IsLeapYear(y) then 29 else 28)
    else if m == 4 || m == 6 || m == 9 || m == 11 then 30
    else 31
  }

  function DaysInYear(y: int): int {
    if IsLeapYear(y) then 366 else 365
  }

  /** A date of the Common Era (years before 1 are not modelled). */
  predicate ValidDate(d: Date) {
    d.year >= 1 && 1 <= d.month <= 12 && 1 <= d.day <= DaysInMonth(d.year, d.month)
  }

  type CivilDate = d: Date | ValidDate(d) witness Date(1, 1, 1)

  /** Days from 0001-01-01 to the first of January of year `y`. */
  function DaysBeforeYear(y: int): int
    requires y >= 1
  {
    var p := y - 1;
    365 * p + p / 4 - p / 100 + p / 400
  }

  /** Days from the first of January to the first of month `m`. */
  function DaysBeforeMonth(y: int, m: int): int
    requires 1 <= m <= 12
  {
    [0, 31, 59, 90, 120, 151, 181, 212, 243, 273, 304, 334][m - 1] + (if m > 2 && IsLeapYear(y) then 1 else 0)
  }

  /** Days since 0001-01-01, which was a Monday. */
  function DayNumber(d: CivilDate): (n: nat)
    ensures DaysBeforeYear(d.year) <= n < DaysBeforeYear(d.year) + DaysInYear(d.year)
  {
    DayOfYearBound(d);
    DaysBeforeYear(d.year) + DaysBeforeMonth(d.year, d.month) + d.day - 1
  }

  /** `getDayOfWeek`. */
  function WeekdayOf(d: CivilDate): (w: DayOfWeek)
    ensures Ordinal(w) == DayNumber(d) % 7
  {
    FromOrdinal(DayNumber(d) % 7)
  }

  lemma DivSteps(p: int)
    requires p >= 0
    ensures (p + 1) / 4 == p / 4 + (if (p + 1) % 4 == 0 then 1 else 0)
    ensures (p + 1) / 100 == p / 100 + (if (p + 1) % 100 == 0 then 1 else 0)
    ensures (p + 1) / 400 == p / 400 + (if (p + 1) % 400 == 0 then 1 else 0)
  {
  }

  /** The leap rule as a count: multiples of 4, less multiples of 100, plus multiples of 400. */
  lemma LeapCount(y: int)
    ensures (if y % 4 == 0 then 1 else 0) - (if y % 100 == 0 then 1 else 0) + (if y % 400 == 0 then 1 else 0)
            == if IsLeapYear(y) then 1 else 0
  {
    if y % 400 == 0 {
      CenturyOfFourCenturies(y);
    }
    if y % 100 == 0 {
      LeapOfCentury(y);
    }
  }

  lemma CenturyOfFourCenturies(y: int)
    requires y % 400 == 0
    ensures y % 100 == 0
  {
    assert y == 100 * (4 * (y / 400));
  }

  lemma LeapOfCentury(y: int)
    requires y % 100 == 0
    ensures y % 4 == 0
  {
    assert y == 4 * (25 * (y / 100));
  }

  lemma YearLength(y: int)
    requires y >= 1
    ensures DaysBeforeYear(y + 1) == DaysBeforeYear(y) + DaysInYear(y)
  {
    DivSteps(y - 1);
    LeapCount(y);
  }

  lemma MonthLength(y: int, m: int)
    requires 1 <= m < 12
    ensures DaysBeforeMonth(y, m + 1) == DaysBeforeMonth(y, m) + DaysInMonth(y, m)
  {
  }

  /** The day after `d`: next day of the month, first of the next month, or New Year. */
  function NextDay(d: CivilDate): (r: CivilDate)
    ensures DayNumber(r) == DayNumber(d) + 1
  {
    if d.day < DaysInMonth(d.year, d.month) then d.(day := d.day + 1)
    else if d.month < 12 then
      MonthLength(d.year, d.month);
      Date(d.year, d.month + 1, 1)
    else
      YearLength(d.year);
      Date(d.year + 1, 1, 1)
  }

  /** `plusDays(n)` for a non-negative `n`. */
  function PlusDays(d: CivilDate, n: nat): (r: CivilDate)
    ensures DayNumber(r) == DayNumber(d) + n
    decreases n
  {
    if n == 0 then d else PlusDays(NextDay(d), n - 1)
  }

  /** `getValue()`: MONDAY is 1, SUNDAY is 7. */
  function IsoValue(w: DayOfWeek): int {
    Ordinal(w) + 1
  }

  /** How far `nextOrSame` moves: 0 on the day itself, else the days up to the next `dow`. */
  function NextOrSameOffset(today: CivilDate, dow: DayOfWeek): (n: nat)
    ensures n < 7 && (DayNumber(today) + n) % 7 == Ordinal(dow)
  {
    var calDow := IsoValue(WeekdayOf(today));
    var daysDiff := calDow - IsoValue(dow);
    var n := if daysDiff == 0 then 0 else if daysDiff >= 0 then 7 - daysDiff else -daysDiff;
    WeekOffset(DayNumber(today), Ordinal(dow), n);
    n
  }

  lemma WeekOffset(x: nat, o: int, n: int)
    requires 0 <= o < 7
    requires var diff := x % 7 - o; n == if diff == 0 then 0 else if diff >= 0 then 7 - diff else -diff
    ensures 0 <= n < 7 && (x + n) % 7 == o
  {
  }

  lemma SameWeekday(x: int, y: int, z: int)
    requires x <= y < x + 7 && x <= z < x + 7 && y % 7 == z % 7
    ensures y == z
  {
  }

  /**
   * `today.with(TemporalAdjusters.nextOrSame(dow))`: `today` itself when it
   * falls on `dow`, otherwise the first later date that does.
   */
  function NextOrSame(today: CivilDate, dow: DayOfWeek): (r: CivilDate)
    ensures DayNumber(today) <= DayNumber(r) <= DayNumber(today) + 6
    ensures WeekdayOf(r) == dow
  {
    var n := NextOrSameOffset(today, dow);
    var r := if n == 0 then today else PlusDays(today, n);
    OrdinalInjective(WeekdayOf(r), dow);
    r
  }

  /** Within a week of `today` each weekday occurs once, so `nextOrSame` finds the only candidate. */
  lemma NextOrSameUnique(today: CivilDate, dow: DayOfWeek, n: nat)
    requires n < 7 && WeekdayOf(PlusDays(today, n)) == dow
    ensures NextOrSame(today, dow) == PlusDays(today, n)
  {
    var r := NextOrSame(today, dow);
    var p := PlusDays(today, n);
    var x, y, z := DayNumber(today), DayNumber(r), DayNumber(p);
    assert y % 7 == Ordinal(dow) == z % 7;
    SameWeekday(x, y, z);
    PlusDaysOffset(today, r, n);
  }

  /** A date `m` days after `today` is `today.plusDays(m)`. */
  lemma {:induction false} PlusDaysOffset(today: CivilDate, r: CivilDate, m: nat)
    requires DayNumber(r) == DayNumber(today) + m
    ensures r == PlusDays(today, m)
  {
    DayNumberInjective(r, PlusDays(today, m));
  }

  /** Days of the year before `d`, always less than the year's length. */
  lemma DayOfYearBound(d: CivilDate)
    ensures 0 <= DaysBeforeMonth(d.year, d.month) + d.day - 1 < DaysInYear(d.year)
  {
  }

  lemma {:induction false} DaysBeforeYearMonotone(a: int, b: int)
    requires 1 <= a < b
    ensures DaysBeforeYear(a) + DaysInYear(a) <= DaysBeforeYear(b)
    decreases b - a
  {
    YearLength(a);
    if a + 1 < b {
      DaysBeforeYearMonotone(a + 1, b);
    }
  }

  /** Different dates have different day numbers. */
  lemma DayNumberInjective(a: CivilDate, b: CivilDate)
    requires DayNumber(a) == DayNumber(b)
    ensures a == b
  {
    DayOfYearBound(a);
    DayOfYearBound(b);
    if a.year < b.year {
      DaysBeforeYearMonotone(a.year, b.year);
    } else if b.year < a.year {
      DaysBeforeYearMonotone(b.year, a.year);
    }
    assert a.year == b.year;
    assert DaysBeforeMonth(a.year, a.month) + a.day == DaysBeforeMonth(b.year, b.month) + b.day;
  }

  /** Friday 16 October 2026 is followed by Wednesday 21 October, and is its own next-or-same Friday. */
  lemma NextWednesdayExample()
    ensures ValidDate(Date(2026, 10, 16)) && ValidDate(Date(2026, 10, 21))
    ensures WeekdayOf(Date(2026, 10, 16)) == FRIDAY
    ensures NextOrSame(Date(2026, 10, 16), WEDNESDAY) == Date(2026, 10, 21)
    ensures NextOrSame(Date(2026, 10, 16), FRIDAY) == Date(2026, 10, 16)
  {
    var today: CivilDate := Date(2026, 10, 16);
    var wed: CivilDate := Date(2026, 10, 21);
    assert DaysBeforeYear(2026) == 739616;
    assert DayNumber(today) == 739904;
    assert DayNumber(wed) == 739909;
    DayNumberInjective(PlusDays(today, 5), wed);
    NextOrSameUnique(today, WEDNESDAY, 5);
    NextOrSameUnique(today, FRIDAY, 0);
  }

  // ---------------------------------------------------------------------
  // The `yyyyMMdd'T'HHmmss` pattern

  /**
   * `yyyy`: at least four digits, zero-padded, and a '+' before years past
   * 9999 (the pattern's sign style pads to four and marks wider values).
   */
  function YearText(y: nat): (r: string)
    ensures y <= 9999 ==> |r| == 4 && AllDigits(r) && Value(r) == y
    ensures y > 9999 ==> |r| > 0 && r[0] == '+'
  {
    if y > 9999 then "+" + Decimal(y) else Padded(y, 4)
  }

  /** `LocalDateTime.format` with `yyyyMMdd'T'HHmmss`; `second` is the seconds field. */
  function BasicDateTime(d: CivilDate, t: TimeOfDay, second: nat): (r: string)
    requires second < 60
    ensures d.year <= 9999 ==> |r| == 15 && r[8] == 'T' && AllDigits(r[..8]) && AllDigits(r[9..])
  {
    DateText(d) + "T" + TimeText(t, second)
  }

  /** `yyyyMMdd`. */
  function DateText(d: CivilDate): (r: string)
    ensures d.year <= 9999 ==> |r| == 8 && AllDigits(r)
  {
    AllDigitsConcat(Padded(d.month, 2), Padded(d.day, 2));
    if d.year <= 9999 then
      AllDigitsConcat(YearText(d.year), Padded(d.month, 2) + Padded(d.day, 2));
      assert YearText(d.year) + Padded(d.month, 2) + Padded(d.day, 2) == YearText(d.year) + (Padded(d.month, 2) + Padded(d.day, 2));
      YearText(d.year) + Padded(d.month, 2) + Padded(d.day, 2)
    else
    YearText(d.year) + Padded(d.month, 2) + Padded(d.day, 2)
  }

  /** `HHmmss`. */
  function TimeText(t: TimeOfDay, second: nat): (r: string)
    ensures second < 60 ==> |r| == 6 && AllDigits(r)
  {
    AllDigitsConcat(Padded(Minute(t), 2), Padded(second, 2));
    AllDigitsConcat(Padded(Hour(t), 2), Padded(Minute(t), 2) + Padded(second, 2));
    assert Padded(Hour(t), 2) + Padded(Minute(t), 2) + Padded(second, 2) == Padded(Hour(t), 2) + (Padded(Minute(t), 2) + Padded(second, 2));
    Padded(Hour(t), 2) + Padded(Minute(t), 2) + Padded(second, 2)
  }

  /** A reference reader for the four-digit-year form of the pattern. */
  function ReadBasicDateTime(s: string): Option<(Date, TimeOfDay, nat)> {
    if |s| != 15 || s[8] != 'T' then None else ReadFields(s[..8], s[9..])
  }

  /** Reads `yyyyMMdd` and `HHmmss`. */
  function ReadFields(date: string, time: string): Option<(Date, TimeOfDay, nat)>
    requires |date| == 8 && |time| == 6
  {
    if !AllDigits(date) || !AllDigits(time) then None
    else
      var d := Date(Value(date[..4]), Value(date[4..6]), Value(date[6..]));
      var h, m, sec := Value(time[..2]), Value(time[2..4]), Value(time[4..]);
      if h < 24 && m < 60 then Some((d, h * 60 + m, sec)) else None
  }

  lemma AllDigitsConcat(a: string, b: string)
    requires AllDigits(a) && AllDigits(b)
    ensures AllDigits(a + b)
  {
  }

  lemma Slices<T>(p: seq<T>, q: seq<T>, r: seq<T>)
    ensures (p + q + r)[..|p|] == p && (p + q + r)[|p|..|p| + |q|] == q && (p + q + r)[|p| + |q|..] == r
  {
  }

  /** Three digit fields side by side read back one by one. */
  lemma ReadThree(p: string, q: string, r: string)
    requires AllDigits(p) && AllDigits(q) && AllDigits(r)
    ensures AllDigits(p + q + r)
    ensures Value((p + q + r)[..|p|]) == Value(p)
    ensures Value((p + q + r)[|p|..|p| + |q|]) == Value(q)
    ensures Value((p + q + r)[|p| + |q|..]) == Value(r)
  {
    AllDigitsConcat(p, q);
    AllDigitsConcat(p + q, r);
    Slices(p, q, r);
  }

  /** A date part and a time part joined by 'T' are read back part by part. */
  lemma ReadParts(date: string, time: string)
    requires |date| == 8 && |time| == 6
    ensures ReadBasicDateTime(date + "T" + time) == ReadFields(date, time)
  {
    Slices(date, "T", time);
  }

  /** `yyyyMMdd` of a date up to year 9999 holds the year, month and day in its three fields. */
  lemma DateTextFields(d: CivilDate)
    requires d.year <= 9999
    ensures |DateText(d)| == 8 && AllDigits(DateText(d))
    ensures Value(DateText(d)[..4]) == d.year && Value(DateText(d)[4..6]) == d.month
    ensures Value(DateText(d)[6..]) == d.day
  {
    ReadThree(YearText(d.year), Padded(d.month, 2), Padded(d.day, 2));
  }

  /** `HHmmss` holds the hour, the minute and the second in its three fields. */
  lemma TimeTextFields(t: TimeOfDay, second: nat)
    requires second < 60
    ensures |TimeText(t, second)| == 6 && AllDigits(TimeText(t, second))
    ensures Value(TimeText(t, second)[..2]) == Hour(t) && Value(TimeText(t, second)[2..4]) == Minute(t)
    ensures Value(TimeText(t, second)[4..]) == second
  {
    HourAndMinute(t);
    ReadThree(Padded(Hour(t), 2), Padded(Minute(t), 2), Padded(second, 2));
  }

  /** For years up to 9999 the exported text reads back as the same date and time. */
  lemma BasicDateTimeRoundTrip(d: CivilDate, t: TimeOfDay, second: nat)
    requires d.year <= 9999 && second < 60
    ensures |BasicDateTime(d, t, second)| == 15
    ensures ReadBasicDateTime(BasicDateTime(d, t, second)) == Some((d, t, second))
  {
    DateTextFields(d);
    TimeTextFields(t, second);
    ReadParts(DateText(d), TimeText(t, second));
    FieldsRead(DateText(d), TimeText(t, second), d, t, second);
  }

  /** Digits that hold a date's and a time's fields read back as that date and time. */
  lemma FieldsRead(date: string, time: string, d: Date, t: TimeOfDay, second: nat)
    requires |date| == 8 && |time| == 6 && AllDigits(date) && AllDigits(time)
    requires Value(date[..4]) == d.year && Value(date[4..6]) == d.month && Value(date[6..]) == d.day
    requires Value(time[..2]) == Hour(t) && Value(time[2..4]) == Minute(t) && Value(time[4..]) == second
    ensures ReadFields(date, time) == Some((d, t, second))
  {
    HourAndMinute(t);
  }

  /** Past 9999 the year is written with a leading '+'. */
  lemma BasicDateTimeWideYear(d: CivilDate, t: TimeOfDay, second: nat)
    requires d.year > 9999 && second < 60
    ensures BasicDateTime(d, t, second)[0] == '+'
  {
  }
}
