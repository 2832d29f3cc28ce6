/**
 * Wall-clock times of the edit dialog (EditEventDialogue.kt): the
 * "h:mm a" formatter, `parseTime` with its fallback, the ±30 minute
 * buttons, and the time picker's 24-hour ↔ 12-hour conversions.
 * A `LocalTime` is modelled to the minute, as minutes since midnight.
 */
module Clock {
  import opened Options
  import opened Digits

  const MinutesPerDay: int := 1440

  type TimeOfDay = m: int | 0 <= m < MinutesPerDay

  function Hour(t: TimeOfDay): int { t / 60 }

  function Minute(t: TimeOfDay): int { t % 60 }

  lemma HourAndMinute(t: TimeOfDay)
    ensures 0 <= Hour(t) < 24 && 0 <= Minute(t) < 60 && Hour(t) * 60 + Minute(t) == t
  {
  }

  /** `LocalTime.of(hour, minute)`. */
  function At(hour: int, minute: int): (t: TimeOfDay)
    requires 0 <= hour < 24 && 0 <= minute < 60
    ensures Hour(t) == hour && Minute(t) == minute
  {
    hour * 60 + minute
  }

  /** The `h` field, clock-hour-of-am-pm: 12, 1, 2, ..., 11. */
  function ClockHour(t: TimeOfDay): (h: int)
    ensures 1 <= h <= 12
  {
    if Hour(t) % 12 == 0 then 12 else Hour(t) % 12
  }

  /** The `a` field in Locale.US. */
  function AmPm(t: TimeOfDay): (a: string)
    ensures a == "AM" || a == "PM"
  {
    if Hour(t) < 12 then "AM" else "PM"
  }

  /** `time.format(timeFormatter)` with the pattern "h:mm a": "1:05 PM", "12:30 AM". */
  function Format(t: TimeOfDay): (r: string)
    ensures |r| == 7 || |r| == 8
    ensures |r| == 7 <==> ClockHour(t) < 10
  {
    DecimalLength(ClockHour(t), 2);
    Decimal(ClockHour(t)) + ":" + Padded(Minute(t), 2) + " " + AmPm(t)
  }

  /** The hour field of a pattern: `h` (one or more digits) or `hh` (exactly two). */
  datatype HourField = Unpadded | TwoDigit

  /**
   * `LocalTime.parse(s, DateTimeFormatter.ofPattern("h:mm a" or "hh:mm a"))`
   * with the default strict, case-sensitive parser and SMART resolver:
   * the hour is 1 to 19 digits (exactly 2 for `hh`) whose value lies in
   * 0..12 (SMART admits 0), then ':', exactly two minute digits in 0..59,
   * one space, and "AM" or "PM" ending the text. `None` where Java throws.
   */
  function Parse(s: string, field: HourField): (r: Option<TimeOfDay>)
    ensures r.Some? ==> |s| >= 6 && (Hour(r.value) < 12 <==> s[|s| - 2] == 'A')
  {
    var n := match field
      case Unpadded => LeadingDigits(s)
      case TwoDigit => if |s| >= 2 && IsDigit(s[0]) && IsDigit(s[1]) then 2 else 0;
    if n == 0 || n > 19 || |s| != n + 6 then None
    else
      assert AllDigits(s[..n]);
      ReadClock(s[..n], s[n..])
  }

  /** The six characters after the hour field: ':', two minute digits, one space, and "AM" or "PM". */
  predicate ClockTail(rest: string) {
    && |rest| == 6 && rest[0] == ':' && IsDigit(rest[1]) && IsDigit(rest[2]) && rest[3] == ' '
    && (rest[4] == 'A' || rest[4] == 'P') && rest[5] == 'M'
  }

  /** The hour digits, then ":mm AM" or ":mm PM" with the minute in 0..59 and the hour in 0..12. */
  function ReadClock(hourText: string, rest: string): (r: Option<TimeOfDay>)
    requires AllDigits(hourText) && |rest| == 6
    ensures r.Some? ==> (Hour(r.value) < 12 <==> rest[4] == 'A')
    ensures r.Some? <==> ClockTail(rest) && Value(hourText) <= 12 && Value(rest[1..3]) <= 59
    ensures r.Some? ==> Hour(r.value) % 12 == Value(hourText) % 12 && Minute(r.value) == Value(rest[1..3])
  {
    if rest[0] != ':' || !IsDigit(rest[1]) || !IsDigit(rest[2]) || rest[3] != ' ' then None
    else if rest[4] !in "AP" || rest[5] != 'M' then None
    else
      var h := Value(hourText);
      var m := Value(rest[1..3]);
      if h > 12 || m > 59 then None
      else Some(At(h % 12 + (if rest[4] == 'P' then 12 else 0), m))
  }

  /**
   * The text the parser accepts: 1 to 19 hour digits (exactly 2 for `hh`)
   * worth at most 12, then the clock tail with a minute of at most 59.
   */
  predicate ClockText(s: string, field: HourField) {
    var n := |s| - 6;
    && 1 <= n <= 19 && (field == TwoDigit ==> n == 2)
    && AllDigits(s[..n]) && ClockTail(s[n..])
    && assert AllDigits(s[n + 1..n + 3]) by { assert s[n + 1..n + 3] == s[n..][1..3]; }
       Value(s[..n]) <= 12 && Value(s[n + 1..n + 3]) <= 59
  }

  /**
   * What a parse yields: a time exactly for the text described above, whose
   * hour is the hour digits' value modulo 12 (so "0" and "12" are both
   * midnight or noon), plus 12 after "PM", and whose minute is the two
   * minute digits.
   */
  lemma ParseMeaning(s: string, field: HourField)
    ensures Parse(s, field).Some? <==> ClockText(s, field)
    ensures Parse(s, field).Some? ==>
              var n := |s| - 6;
              && AllDigits(s[..n]) && AllDigits(s[n + 1..n + 3])
              && Hour(Parse(s, field).value) % 12 == Value(s[..n]) % 12
              && Minute(Parse(s, field).value) == Value(s[n + 1..n + 3])
              && (Hour(Parse(s, field).value) < 12 <==> s[|s| - 2] == 'A')
  {
    var n := |s| - 6;
    ParseShape(s, field);
    if HourThenColon(s, field) {
      assert s[..n] + s[n..] == s;
      ParseSplit(s[..n], s[n..], field);
      assert s[n..][1..3] == s[n + 1..n + 3];
    }
  }

  /** 1 to 19 hour digits (exactly 2 for `hh`), a colon, and five more characters. */
  predicate HourThenColon(s: string, field: HourField) {
    var n := |s| - 6;
    1 <= n <= 19 && (field == TwoDigit ==> n == 2) && AllDigits(s[..n]) && s[n] == ':'
  }

  /** Only text of that outline can parse. */
  lemma ParseShape(s: string, field: HourField)
    ensures Parse(s, field).Some? ==> HourThenColon(s, field)
  {
    var k := match field
      case Unpadded => LeadingDigits(s)
      case TwoDigit => if |s| >= 2 && IsDigit(s[0]) && IsDigit(s[1]) then 2 else 0;
    if k != 0 && k <= 19 && |s| == k + 6 {
      assert AllDigits(s[..k]);
      assert Parse(s, field) == ReadClock(s[..k], s[k..]);
      assert s[k..][0] == s[k];
    }
  }

  /** "0:30 AM": SMART resolution reads clock hour 0 as midnight. */
  lemma ParseHourZero()
    ensures Parse("0:30 AM", Unpadded) == Some(At(0, 30))
  {
    var s := "0:30 AM";
    assert s[..1] == "0" && s[1..] == ":30 AM" && ":30 AM"[1..3] == "30";
    assert Value("0") == 0 by { assert "0"[..0] == ""; }
    assert Value("30") == 30 by { assert "30"[..1] == "3" && "3"[..0] == ""; }
    ParseOneLiteral(s, 1);
    ReadClockAt("0", ":30 AM", 0, 30);
  }

  /** "12:05 AM" is five past midnight. */
  lemma ParseTwelveAm()
    ensures Parse("12:05 AM", Unpadded) == Some(At(0, 5))
  {
    var s := "12:05 AM";
    assert s[..2] == "12" && s[2..] == ":05 AM" && ":05 AM"[1..3] == "05";
    assert Value("12") == 12 by { assert "12"[..1] == "1" && "1"[..0] == ""; }
    assert Value("05") == 5 by { assert "05"[..1] == "0" && "0"[..0] == ""; }
    ParseOneLiteral(s, 2);
    ReadClockAt("12", ":05 AM", 12, 5);
  }

  /** "12:05 PM" is five past noon. */
  lemma ParseTwelvePm()
    ensures Parse("12:05 PM", Unpadded) == Some(At(12, 5))
  {
    var s := "12:05 PM";
    assert s[..2] == "12" && s[2..] == ":05 PM" && ":05 PM"[1..3] == "05";
    assert Value("12") == 12 by { assert "12"[..1] == "1" && "1"[..0] == ""; }
    assert Value("05") == 5 by { assert "05"[..1] == "0" && "0"[..0] == ""; }
    ParseOneLiteral(s, 2);
    ReadClockAt("12", ":05 PM", 12, 5);
  }

  /** `ReadClock` on a well-formed tail yields the hour modulo 12, plus 12 after "PM". */
  lemma ReadClockAt(hourText: string, rest: string, h: nat, m: nat)
    requires AllDigits(hourText) && ClockTail(rest) && AllDigits(rest[1..3])
    requires Value(hourText) == h <= 12 && Value(rest[1..3]) == m <= 59
    ensures ReadClock(hourText, rest) == Some(At(h % 12 + (if rest[4] == 'P' then 12 else 0), m))
  {
  }

  /** A literal parses by splitting it after its `n` hour digits. */
  lemma ParseOneLiteral(s: string, n: nat)
    requires 1 <= n <= 19 && |s| == n + 6 && AllDigits(s[..n]) && s[n] == ':'
    ensures Parse(s, Unpadded) == ReadClock(s[..n], s[n..])
  {
    assert s[..n] + s[n..] == s;
    ParseSplit(s[..n], s[n..], Unpadded);
  }

  /** An hour past 12, a one-digit minute, a lower-case marker and a one-digit `hh` all fail. */
  lemma ParseRejects()
    ensures Parse("13:00 PM", Unpadded) == None
    ensures Parse("9:5 AM", Unpadded) == None
    ensures Parse("9:05 am", Unpadded) == None
    ensures Parse("9:05 AM", TwoDigit) == None
  {
    ParseMeaning("13:00 PM", Unpadded);
    assert "13:00 PM"[..2] == "13";
    ParseMeaning("9:5 AM", Unpadded);
    assert "9:5 AM"[..0] == "";
    ParseMeaning("9:05 am", Unpadded);
    assert "9:05 am"[1..] == ":05 am";
    ParseMeaning("9:05 AM", TwoDigit);
  }

  /** `parseTime`: the "h:mm a" reading of `s`, or the caller's `fallback` (the app passes `LocalTime.now()`). */
  function ParseTime(s: string, fallback: TimeOfDay): (t: TimeOfDay)
    ensures ClockText(s, Unpadded) ==> Parse(s, Unpadded) == Some(t)
    ensures !ClockText(s, Unpadded) ==> t == fallback
  {
    ParseMeaning(s, Unpadded);
    Parse(s, Unpadded).GetOr(fallback)
  }

  /** The `h` field and the marker together give back the hour of day. */
  lemma ClockHourAndMarker(t: TimeOfDay)
    ensures 1 <= ClockHour(t) <= 12 && ClockHour(t) % 12 == Hour(t) % 12
    ensures At(ClockHour(t) % 12 + (if AmPm(t) == "PM" then 12 else 0), Minute(t)) == t
  {
    var h := Hour(t);
    HourAndMinute(t);
    if h < 12 {
      assert h % 12 == h;
    } else {
      assert h % 12 == h - 12;
    }
  }

  /** Any hour text with the right value and width, followed by the formatter's minutes and marker, parses back to `t`. */
  lemma ParseWithHourText(t: TimeOfDay, hourText: string, field: HourField)
    requires AllDigits(hourText) && Value(hourText) == ClockHour(t)
    requires 1 <= |hourText| <= 19 && (field == TwoDigit ==> |hourText| == 2)
    ensures Parse(hourText + ":" + Padded(Minute(t), 2) + " " + AmPm(t), field) == Some(t)
  {
    var rest := ":" + Padded(Minute(t), 2) + " " + AmPm(t);
    SplitAfterHour(hourText, ":", Padded(Minute(t), 2), " ", AmPm(t));
    ReadClockOfFormat(t, hourText);
    ParseSplit(hourText, rest, field);
  }

  lemma SplitAfterHour(h: string, colon: string, mm: string, space: string, marker: string)
    ensures h + colon + mm + space + marker == h + (colon + mm + space + marker)
  {
  }

  /** The parser reads the leading digits as the hour and hands the rest to `ReadClock`. */
  lemma ParseSplit(hourText: string, rest: string, field: HourField)
    requires AllDigits(hourText) && 1 <= |hourText| <= 19 && (field == TwoDigit ==> |hourText| == 2)
    requires |rest| == 6 && rest[0] == ':'
    ensures Parse(hourText + rest, field) == ReadClock(hourText, rest)
  {
    LeadingDigitsOf(hourText, rest);
    assert (hourText + rest)[..|hourText|] == hourText && (hourText + rest)[|hourText|..] == rest;
  }

  /** The formatter's minutes and marker after any hour text of the right value read back as `t`. */
  lemma ReadClockOfFormat(t: TimeOfDay, hourText: string)
    requires AllDigits(hourText) && Value(hourText) == ClockHour(t)
    ensures |":" + Padded(Minute(t), 2) + " " + AmPm(t)| == 6
    ensures ReadClock(hourText, ":" + Padded(Minute(t), 2) + " " + AmPm(t)) == Some(t)
  {
    var mm := Padded(Minute(t), 2);
    var rest := ":" + mm + " " + AmPm(t);
    assert |mm| == 2;
    assert rest[1..3] == mm;
    ClockHourAndMarker(t);
  }

  /** What the formatter writes, the parser reads back: for every minute of the day. */
  lemma FormatParse(t: TimeOfDay)
    ensures Parse(Format(t), Unpadded) == Some(t)
  {
    DecimalLength(ClockHour(t), 2);
    ParseWithHourText(t, Decimal(ClockHour(t)), Unpadded);
  }

  lemma ParseTimeOfFormat(t: TimeOfDay, fallback: TimeOfDay)
    ensures ParseTime(Format(t), fallback) == t
  {
    FormatParse(t);
  }

  /**
   * The "hh:mm a" parser reads the formatter's text once a one-digit hour
   * gets a leading zero, and reads two-digit hours as they are.
   */
  lemma FormatParseTwoDigit(t: TimeOfDay)
    ensures ClockHour(t) < 10 ==> Parse("0" + Format(t), TwoDigit) == Some(t)
    ensures ClockHour(t) >= 10 ==> Parse(Format(t), TwoDigit) == Some(t)
  {
    var d := Decimal(ClockHour(t));
    DecimalLength(ClockHour(t), 1);
    DecimalLength(ClockHour(t), 2);
    if ClockHour(t) < 10 {
      LeadingZeros(1, d);
      assert Zeros(1) == "0";
      assert "0" + Format(t) == ("0" + d) + ":" + Padded(Minute(t), 2) + " " + AmPm(t);
      ParseWithHourText(t, "0" + d, TwoDigit);
    } else {
      ParseWithHourText(t, d, TwoDigit);
    }
  }

  /** Sample outputs of the formatter. */
  lemma FormatExamples()
    ensures Format(At(10, 0)) == "10:00 AM" && Format(At(11, 0)) == "11:00 AM"
  {
    FormatMorningHour(10, "10");
    FormatMorningHour(11, "11");
  }

  /** A whole hour of the morning is written as its clock hour, ":00" and "AM". */
  lemma FormatMorningHour(h: int, hourText: string)
    requires 1 <= h < 12 && hourText == Decimal(h)
    ensures Format(At(h, 0)) == hourText + ":00 AM"
  {
    var t := At(h, 0);
    assert ClockHour(t) == h && Minute(t) == 0 && AmPm(t) == "AM";
    assert Padded(0, 2) == "00" by {
      assert Zeros(1) == "0" && Decimal(0) == "0";
    }
    assert Format(t) == hourText + ":" + "00" + " " + "AM";
  }

  /**
   * `LocalTime.plusMinutes(n)` as Java computes it: the truncated remainder
   * of `n` by 1440 plus the minute of day plus 1440, modulo 1440.
   */
  function PlusMinutes(t: TimeOfDay, n: int): (r: TimeOfDay)
    ensures r == (t + n) % MinutesPerDay
  {
    var rem := if n >= 0 then n % MinutesPerDay else -((-n) % MinutesPerDay);
    if n >= 0 then
      ModShift(n + t, 1 - n / MinutesPerDay);
      (rem + t + MinutesPerDay) % MinutesPerDay
    else
      ModShift(n + t, (-n) / MinutesPerDay + 1);
      (rem + t + MinutesPerDay) % MinutesPerDay
  }

  lemma ModShift(x: int, k: int)
    ensures (x + MinutesPerDay * k) % MinutesPerDay == x % MinutesPerDay
  {
  }

  /** Adding minutes composes: the clock wraps around midnight. */
  lemma PlusMinutesCompose(t: TimeOfDay, a: int, b: int)
    ensures PlusMinutes(PlusMinutes(t, a), b) == PlusMinutes(t, a + b)
  {
    var x := t + a;
    ModShift(x % MinutesPerDay + b, x / MinutesPerDay);
  }

  /** Subtracting what was added gives back the same time. */
  lemma PlusMinutesInverse(t: TimeOfDay, n: int)
    ensures PlusMinutes(PlusMinutes(t, n), -n) == t
  {
    PlusMinutesCompose(t, n, -n);
    assert PlusMinutes(t, 0) == t;
  }

  /** The dialog's local `adjustTime`: parse, add `amount` minutes, format again. */
  function AdjustTime(s: string, amount: int, fallback: TimeOfDay): (r: string)
    ensures Parse(r, Unpadded) == Some(PlusMinutes(ParseTime(s, fallback), amount))
  {
    FormatParse(PlusMinutes(ParseTime(s, fallback), amount));
    Format(PlusMinutes(ParseTime(s, fallback), amount))
  }

  /** An adjusted time reads back as the old time shifted by `amount`, wrapped into one day. */
  lemma AdjustTimeShifts(s: string, amount: int, fallback: TimeOfDay, fallback': TimeOfDay)
    ensures ParseTime(AdjustTime(s, amount, fallback), fallback') == (ParseTime(s, fallback) + amount) % MinutesPerDay
  {
    ParseMeaning(AdjustTime(s, amount, fallback), Unpadded);
  }

  /** The up button then the down button leaves a formatted time as it was, across midnight too. */
  lemma AdjustTimeUndo(t: TimeOfDay, fallback: TimeOfDay, fallback': TimeOfDay)
    ensures AdjustTime(AdjustTime(Format(t), 30, fallback), -30, fallback') == Format(t)
    ensures AdjustTime(AdjustTime(Format(t), -30, fallback), 30, fallback') == Format(t)
  {
    AdjustThenBack(t, 30, fallback, fallback');
    AdjustThenBack(t, -30, fallback, fallback');
  }

  lemma AdjustThenBack(t: TimeOfDay, amount: int, fallback: TimeOfDay, fallback': TimeOfDay)
    ensures AdjustTime(AdjustTime(Format(t), amount, fallback), -amount, fallback') == Format(t)
  {
    var moved := PlusMinutes(t, amount);
    calc {
      AdjustTime(AdjustTime(Format(t), amount, fallback), -amount, fallback');
      { AdjustFormatted(t, amount, fallback); }
      AdjustTime(Format(moved), -amount, fallback');
      { AdjustFormatted(moved, -amount, fallback'); }
      Format(PlusMinutes(moved, -amount));
      { PlusMinutesInverse(t, amount); }
      Format(t);
    }
  }

  lemma AdjustFormatted(t: TimeOfDay, amount: int, fallback: TimeOfDay)
    ensures AdjustTime(Format(t), amount, fallback) == Format(PlusMinutes(t, amount))
  {
    ParseTimeOfFormat(t, fallback);
  }

  /** The time picker's wheels: hour 1..12, minute, and the AM/PM marker. */
  datatype PickerSelection = PickerSelection(hour: int, minute: int, amPm: string)

  /** The picker's initial wheel positions for `initialTime`. */
  function InitialSelection(t: TimeOfDay): (p: PickerSelection)
    ensures 1 <= p.hour <= 12 && p.hour % 12 == Hour(t) % 12
    ensures p.minute == Minute(t)
    ensures p.amPm == "AM" || p.amPm == "PM"
    ensures p.amPm == "AM" <==> Hour(t) < 12
  {
    PickerSelection(
      if Hour(t) == 0 || Hour(t) == 12 then 12 else Hour(t) % 12,
      Minute(t),
      if Hour(t) < 12 then "AM" else "PM")
  }

  /** The OK button's `when (selectedAmPm)` conversion to a 24-hour hour. */
  function Hour24(hour: int, amPm: string): (h: int)
    ensures 1 <= hour <= 12 && (amPm == "AM" || amPm == "PM") ==>
              0 <= h < 24 && h % 12 == hour % 12 && (h < 12 <==> amPm == "AM")
    ensures amPm != "AM" && amPm != "PM" ==> h == 0
  {
    if amPm == "PM" then (if hour == 12 then 12 else hour + 12)
    else if amPm == "AM" then (if hour == 12 then 0 else hour)
    else 0
  }

  predicate WheelPositions(p: PickerSelection) {
    1 <= p.hour <= 12 && 0 <= p.minute < 60 && (p.amPm == "AM" || p.amPm == "PM")
  }

  /** `LocalTime.of(hour24, selectedMinute)` on OK; the wheels only offer hours 1..12 and minutes 0..59. */
  function SelectedTime(p: PickerSelection): (t: TimeOfDay)
    requires 1 <= p.hour <= 12 && 0 <= p.minute < 60
    ensures Minute(t) == p.minute
    ensures p.amPm == "AM" || p.amPm == "PM" ==> Hour(t) % 12 == p.hour % 12 && (Hour(t) < 12 <==> p.amPm == "AM")
    ensures p.amPm != "AM" && p.amPm != "PM" ==> Hour(t) == 0
  {
    At(Hour24(p.hour, p.amPm), p.minute)
  }

  /** Opening the picker and pressing OK straight away gives back the same time. */
  lemma PickerRoundTrip(t: TimeOfDay)
    ensures SelectedTime(InitialSelection(t)) == t
  {
  }

  /** Conversely, any wheel positions survive a trip through the 24-hour time. */
  lemma PickerRoundTripBack(p: PickerSelection)
    requires WheelPositions(p)
    ensures InitialSelection(SelectedTime(p)) == p
  {
  }
}
