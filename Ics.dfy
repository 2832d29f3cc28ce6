/**
 * `createIcsFromSchedule` (ConvertToICS.kt): the weekly schedule as an
 * iCalendar text, a VCALENDAR (section 3.4 of RFC 5545) holding one
 * weekly-recurring VEVENT (section 3.6.1) per event whose times parse.
 * Lines end in LF, as `appendLine` writes them; values are neither escaped
 * nor folded.
 */
module Ics {
  import opened Options
  import opened Digits
  import opened Days
  import opened Clock
  import opened Dates
  import opened Schedule

  /** The text of a `StringBuilder` after `appendLine` of each line in turn. */
  function Unlines(lines: seq<string>): string {
    if lines == [] then "" else Unlines(lines[..|lines| - 1]) + lines[|lines| - 1] + "\n"
  }

  lemma {:induction false} UnlinesConcat(a: seq<string>, b: seq<string>)
    ensures Unlines(a + b) == Unlines(a) + Unlines(b)
    decreases |b|
  {
    if b == [] {
      assert a + b == a;
    } else {
      var c := b[..|b| - 1];
      assert (a + b)[..|a + b| - 1] == a + c;
      UnlinesConcat(a, c);
    }
  }

  /** How often `line` occurs among `lines`. */
  function CountOf(lines: seq<string>, line: string): nat {
    if lines == [] then 0 else CountOf(lines[..|lines| - 1], line) + (if lines[|lines| - 1] == line then 1 else 0)
  }

  lemma {:induction false} CountOfConcat(a: seq<string>, b: seq<string>, line: string)
    ensures CountOf(a + b, line) == CountOf(a, line) + CountOf(b, line)
    decreases |b|
  {
    if b == [] {
      assert a + b == a;
    } else {
      var c := b[..|b| - 1];
      assert (a + b)[..|a + b| - 1] == a + c;
      CountOfConcat(a, c, line);
    }
  }

  /** A line that starts differently from `line` is not `line`. */
  lemma {:induction false} CountOfOthers(lines: seq<string>, line: string)
    requires line != [] && forall i :: 0 <= i < |lines| ==> lines[i] == [] || lines[i][0] != line[0]
    ensures CountOf(lines, line) == 0
  {
    if lines != [] {
      CountOfOthers(lines[..|lines| - 1], line);
    }
  }

  // ---------------------------------------------------------------------
  // One event

  type Second = s: nat | s < 60

  /** `ZonedDateTime.now(ZoneOffset.UTC)`, to the second. */
  datatype Instant = Instant(date: CivilDate, time: TimeOfDay, second: Second)

  /** DTSTAMP's value: the UTC form of a DATE-TIME (section 3.3.5 of RFC 5545). */
  function StampText(now: Instant): (r: string)
    ensures |r| > 0 && r[|r| - 1] == 'Z'
    ensures now.date.year <= 9999 ==> ReadBasicDateTime(r[..|r| - 1]) == Some((now.date, now.time, now.second as nat))
  {
    var text := BasicDateTime(now.date, now.time, now.second);
    assert (text + "Z")[..|text|] == text;
    if now.date.year <= 9999 then
      BasicDateTimeRoundTrip(now.date, now.time, now.second);
      text + "Z"
    else text + "Z"
  }

  /** The "0" the exporter puts before a time whose second character is ':'. */
  function PadHour(s: string): (r: string)
    requires |s| >= 2
    ensures s[1] == ':' ==> r == "0" + s
    ensures s[1] != ':' ==> r == s
  {
    (if s[1] == ':' then "0" else "") + s
  }

  /**
   * The start and end time as the exporter reads them with "hh:mm a";
   * `None` where reading either character 1 or parsing throws.
   */
  function EventTimes(e: ScheduleEvent): (r: Option<(TimeOfDay, TimeOfDay)>)
  {
    if |e.startTime| < 2 || |e.endTime| < 2 then None
    else
      var start, end := Parse(PadHour(e.startTime), TwoDigit), Parse(PadHour(e.endTime), TwoDigit);
      if start.Some? && end.Some? then Some((start.value, end.value)) else None
  }

  /**
   * The exporter keeps an event exactly when both times, a "0" put before
   * a one-digit hour, are two hour digits worth at most 12, a colon, two
   * minute digits worth at most 59, a space and "AM" or "PM".
   */
  lemma EventTimesMeaning(e: ScheduleEvent)
    ensures EventTimes(e).Some? <==> && |e.startTime| >= 2 && |e.endTime| >= 2
                                     && ClockText(PadHour(e.startTime), TwoDigit) && ClockText(PadHour(e.endTime), TwoDigit)
  {
    if |e.startTime| >= 2 && |e.endTime| >= 2 {
      ParseMeaning(PadHour(e.startTime), TwoDigit);
      ParseMeaning(PadHour(e.endTime), TwoDigit);
    }
  }

  /** SUMMARY and the optional LOCATION and DESCRIPTION lines. */
  function Describe(e: ScheduleEvent): (r: seq<string>)
    ensures |r| == 1 + (if e.location.Some? then 1 else 0) + (if e.notes.Some? then 1 else 0)
    ensures forall i :: 0 <= i < |r| ==> r[i] != [] && r[i][0] in "SLD"
    ensures r[0] == "SUMMARY:" + e.title
    ensures e.location.Some? ==> r[1] == "LOCATION:" + e.location.value
    ensures e.notes.Some? ==> r[|r| - 1] == "DESCRIPTION:" + e.notes.value
    ensures forall i :: 0 < i < |r| ==> (r[i][0] == 'L' <==> e.location.Some? && i == 1)
    ensures forall i :: 0 < i < |r| ==> (r[i][0] == 'D' <==> e.notes.Some? && i == |r| - 1)
  {
    ["SUMMARY:" + e.title]
    + (if e.location.Some? then ["LOCATION:" + e.location.value] else [])
    + (if e.notes.Some? then ["DESCRIPTION:" + e.notes.value] else [])
  }

  /**
   * The block's first six lines: BEGIN, UID, DTSTAMP, DTSTART, DTEND and the
   * weekly RRULE; `dtStart` and `dtEnd` are the formatted start and end.
   */
  function Opening(e: ScheduleEvent, stamp: string, dtStart: string, dtEnd: string): (r: seq<string>)
    ensures |r| == 6 && r[0] == "BEGIN:VEVENT" && r[1] == "UID:" + e.id && r[2] == "DTSTAMP:" + stamp
    ensures r[3] == "DTSTART:" + dtStart && r[4] == "DTEND:" + dtEnd && r[5] == "RRULE:FREQ=WEEKLY"
    ensures forall i :: 1 <= i < |r| ==> r[i] != [] && r[i][0] != 'B'
  {
    ["BEGIN:VEVENT", "UID:" + e.id, "DTSTAMP:" + stamp, "DTSTART:" + dtStart, "DTEND:" + dtEnd, "RRULE:FREQ=WEEKLY"]
  }

  /** The opening lines keep their places when more lines follow. */
  lemma OpeningLines(e: ScheduleEvent, stamp: string, dtStart: string, dtEnd: string, more: seq<string>)
    ensures var r := Opening(e, stamp, dtStart, dtEnd) + more;
            r[3] == "DTSTART:" + dtStart && r[4] == "DTEND:" + dtEnd && r[5] == "RRULE:FREQ=WEEKLY"
  {
  }

  /** The lines of an event dated `date` from `start` to `end`. */
  function Block(e: ScheduleEvent, stamp: string, date: CivilDate, start: TimeOfDay, end: TimeOfDay): (b: seq<string>)
    ensures 8 <= |b| <= 10 && b[0] == "BEGIN:VEVENT" && b[|b| - 1] == "END:VEVENT"
  {
    Opening(e, stamp, BasicDateTime(date, start, 0), BasicDateTime(date, end, 0)) + Describe(e) + ["END:VEVENT"]
  }

  /** A block's DTSTART and DTEND carry its date at the start and end time, followed by the weekly rule. */
  lemma BlockTimes(e: ScheduleEvent, stamp: string, date: CivilDate, start: TimeOfDay, end: TimeOfDay)
    ensures var b := Block(e, stamp, date, start, end);
            && |b| > 5
            && b[3] == "DTSTART:" + BasicDateTime(date, start, 0)
            && b[4] == "DTEND:" + BasicDateTime(date, end, 0)
            && b[5] == "RRULE:FREQ=WEEKLY"
  {
    var dtStart, dtEnd := BasicDateTime(date, start, 0), BasicDateTime(date, end, 0);
    var more := Describe(e) + ["END:VEVENT"];
    OpeningLines(e, stamp, dtStart, dtEnd, more);
    assert Block(e, stamp, date, start, end) == Opening(e, stamp, dtStart, dtEnd) + more;
  }

  /**
   * The VEVENT block of one event, dated the next `today`-or-later day of
   * its weekday, or `None` when the event is skipped.
   */
  function VEvent(e: ScheduleEvent, today: CivilDate, stamp: string): (r: Option<seq<string>>)
    ensures r.Some? <==> EventTimes(e).Some?
    ensures r.Some? ==> var (start, end) := EventTimes(e).value;
                        r.value == Block(e, stamp, NextOrSame(today, e.day), start, end)
  {
    match EventTimes(e)
    case None => None
    case Some((start, end)) =>
      Some(Block(e, stamp, NextOrSame(today, e.day), start, end))
  }

  /** Every exported block opens exactly one VEVENT: no other line starts with 'B'. */
  lemma BlockOpensOnce(e: ScheduleEvent, stamp: string, dtStart: string, dtEnd: string)
    ensures CountOf(Opening(e, stamp, dtStart, dtEnd) + Describe(e) + ["END:VEVENT"], "BEGIN:VEVENT") == 1
  {
    var o, d := Opening(e, stamp, dtStart, dtEnd), Describe(e);
    var key := "BEGIN:VEVENT";
    var rest := o[1..] + d + ["END:VEVENT"];
    assert o + d + ["END:VEVENT"] == [key] + rest;
    assert forall i :: 0 <= i < |rest| ==> rest[i] != [] && rest[i][0] != 'B' by {
      forall i | 0 <= i < |rest| ensures rest[i] != [] && rest[i][0] != 'B' {
        if i < 5 {
          assert rest[i] == o[i + 1];
        } else if i < 5 + |d| {
          assert rest[i] == d[i - 5];
        }
      }
    }
    CountOfOthers(rest, key);
    CountOfConcat([key], rest, key);
    assert [key][..0] == [];
  }

  // ---------------------------------------------------------------------
  // The whole calendar

  /** The lines of each element's block, one block after the other. */
  function Blocks<T>(s: seq<T>, block: T -> seq<string>): seq<string> {
    if s == [] then [] else Blocks(s[..|s| - 1], block) + block(s[|s| - 1])
  }

  lemma {:induction false} BlocksConcat<T>(a: seq<T>, b: seq<T>, block: T -> seq<string>)
    ensures Blocks(a + b, block) == Blocks(a, block) + Blocks(b, block)
    decreases |b|
  {
    if b == [] {
      assert a + b == a;
    } else {
      var c := b[..|b| - 1];
      assert (a + b)[..|a + b| - 1] == a + c;
      BlocksConcat(a, c, block);
    }
  }

  /** An element whose block is empty leaves no trace. */
  lemma BlocksSkip<T>(a: seq<T>, x: T, b: seq<T>, block: T -> seq<string>)
    requires block(x) == []
    ensures Blocks(a + [x] + b, block) == Blocks(a + b, block)
  {
    BlocksConcat(a + [x], b, block);
    BlocksConcat(a, [x], block);
    BlocksConcat(a, b, block);
    assert [x][..0] == [];
  }

  /** An event's lines in the export: its VEVENT block, or nothing when it is skipped. */
  function EventBlock(today: CivilDate, stamp: string): ScheduleEvent -> seq<string> {
    (e: ScheduleEvent) => VEvent(e, today, stamp).GetOr([])
  }

  /** The blocks of all exported events, in input order. */
  function EventLines(events: seq<ScheduleEvent>, today: CivilDate, stamp: string): seq<string> {
    Blocks(events, EventBlock(today, stamp))
  }

  /** The calendar's header: VCALENDAR opens, version 2.0, the product id and the Gregorian scale. */
  function Header(prodId: string): (r: seq<string>)
    ensures |r| == 4 && r[0] == "BEGIN:VCALENDAR" && r[2] == "PRODID:" + prodId
    ensures forall i :: 0 < i < |r| ==> r[i] != [] && r[i][0] != 'B'
  {
    ["BEGIN:VCALENDAR", "VERSION:2.0", "PRODID:" + prodId, "CALSCALE:GREGORIAN"]
  }

  /** The lines `createIcsFromSchedule` appends. */
  function CalendarLines(events: seq<ScheduleEvent>, prodId: string, today: CivilDate, stamp: string): (r: seq<string>)
    ensures |r| >= 5 && r[..4] == Header(prodId) && r[|r| - 1] == "END:VCALENDAR"
    ensures events == [] ==> r == Header(prodId) + ["END:VCALENDAR"]
  {
    Header(prodId) + EventLines(events, today, stamp) + ["END:VCALENDAR"]
  }

  /** Exporting a list is exporting its parts one after the other. */
  lemma EventLinesConcat(a: seq<ScheduleEvent>, b: seq<ScheduleEvent>, today: CivilDate, stamp: string)
    ensures EventLines(a + b, today, stamp) == EventLines(a, today, stamp) + EventLines(b, today, stamp)
  {
    BlocksConcat(a, b, EventBlock(today, stamp));
  }

  /** An event whose times do not parse leaves no line behind, and the others are still exported. */
  lemma SkippedEvent(a: seq<ScheduleEvent>, e: ScheduleEvent, b: seq<ScheduleEvent>, today: CivilDate, stamp: string)
    requires EventTimes(e).None?
    ensures EventLines(a + [e] + b, today, stamp) == EventLines(a + b, today, stamp)
  {
    assert VEvent(e, today, stamp).None?;
    BlocksSkip(a, e, b, EventBlock(today, stamp));
  }

  /** The events the exporter keeps: those whose times parse. */
  function Exportable(events: seq<ScheduleEvent>): (r: seq<ScheduleEvent>)
    ensures |r| <= |events|
    ensures forall e :: e in r ==> e in events && EventTimes(e).Some?
  {
    if events == [] then []
    else
      var init, last := events[..|events| - 1], events[|events| - 1];
      assert forall e :: e in init ==> e in events;
      Exportable(init) + (if EventTimes(last).Some? then [last] else [])
  }

  /** Every event whose times parse is kept, and only those. */
  lemma {:induction false} ExportableMembers(events: seq<ScheduleEvent>)
    ensures forall e :: e in Exportable(events) <==> e in events && EventTimes(e).Some?
  {
    if events != [] {
      var init, last := events[..|events| - 1], events[|events| - 1];
      ExportableMembers(init);
      assert events == init + [last];
    }
  }

  /** The kept events stay in input order: keeping works piece by piece. */
  lemma ExportableConcat(a: seq<ScheduleEvent>, b: seq<ScheduleEvent>)
    ensures Exportable(a + b) == Exportable(a) + Exportable(b)
  {
    ExportableIsKept(a + b);
    ExportableIsKept(a);
    ExportableIsKept(b);
    KeptConcat(a, b, TimesParse);
  }

  predicate TimesParse(e: ScheduleEvent) {
    EventTimes(e).Some?
  }

  /** `filter { keep(it) }`, written from the back as `Exportable` is. */
  function Kept<T>(s: seq<T>, keep: T -> bool): seq<T> {
    if s == [] then [] else Kept(s[..|s| - 1], keep) + (if keep(s[|s| - 1]) then [s[|s| - 1]] else [])
  }

  lemma {:induction false} KeptConcat<T>(a: seq<T>, b: seq<T>, keep: T -> bool)
    ensures Kept(a + b, keep) == Kept(a, keep) + Kept(b, keep)
  {
    if b == [] {
      assert a + b == a;
    } else {
      KeptConcat(a, b[..|b| - 1], keep);
      assert (a + b)[..|a + b| - 1] == a + b[..|b| - 1];
    }
  }

  lemma {:induction false} ExportableIsKept(events: seq<ScheduleEvent>)
    ensures Exportable(events) == Kept(events, TimesParse)
  {
    if events != [] {
      ExportableIsKept(events[..|events| - 1]);
    }
  }

  /** A single event is kept exactly when its times parse. */
  lemma ExportableOne(e: ScheduleEvent)
    ensures Exportable([e]) == if EventTimes(e).Some? then [e] else []
  {
    assert [e][..0] == [];
  }

  /** There are as many VEVENTs as events whose times parse. */
  lemma {:induction false} VEventCount(events: seq<ScheduleEvent>, today: CivilDate, stamp: string)
    ensures CountOf(EventLines(events, today, stamp), "BEGIN:VEVENT") == |Exportable(events)|
  {
    if events != [] {
      var init, last := events[..|events| - 1], events[|events| - 1];
      VEventCount(init, today, stamp);
      assert events == init + [last];
      CountOfConcat(EventLines(init, today, stamp), EventBlock(today, stamp)(last), "BEGIN:VEVENT");
      match EventTimes(last)
      case None =>
      case Some((start, end)) =>
        var date := NextOrSame(today, last.day);
        BlockOpensOnce(last, stamp, BasicDateTime(date, start, 0), BasicDateTime(date, end, 0));
    }
  }

  /** The same count over the whole calendar: no header or footer line opens a VEVENT. */
  lemma CalendarVEventCount(events: seq<ScheduleEvent>, prodId: string, today: CivilDate, stamp: string)
    ensures CountOf(CalendarLines(events, prodId, today, stamp), "BEGIN:VEVENT") == |Exportable(events)|
  {
    var body := EventLines(events, today, stamp);
    VEventCount(events, today, stamp);
    CountOfConcat(Header(prodId) + body, ["END:VCALENDAR"], "BEGIN:VEVENT");
    CountOfConcat(Header(prodId), body, "BEGIN:VEVENT");
    CountOfOthers(["END:VCALENDAR"], "BEGIN:VEVENT");
    assert CountOf(Header(prodId), "BEGIN:VEVENT") == 0 by {
      assert Header(prodId) == ["BEGIN:VCALENDAR"] + Header(prodId)[1..];
      CountOfOthers(Header(prodId)[1..], "BEGIN:VEVENT");
      CountOfConcat(["BEGIN:VCALENDAR"], Header(prodId)[1..], "BEGIN:VEVENT");
      assert ["BEGIN:VCALENDAR"][..0] == [];
    }
  }

  // ---------------------------------------------------------------------
  // Times written by the editor

  /** The formatter's text has ':' second exactly when the hour has one digit. */
  lemma FormatSecondChar(t: TimeOfDay)
    ensures |Format(t)| >= 2
    ensures Format(t)[1] == ':' <==> ClockHour(t) < 10
  {
    var d := Decimal(ClockHour(t));
    DecimalLength(ClockHour(t), 2);
    assert Format(t) == d + (":" + Padded(Minute(t), 2) + " " + AmPm(t));
    if ClockHour(t) >= 10 {
      assert Format(t)[1] == d[1];
    }
  }

  /** A time the edit dialog wrote is read back exactly by the exporter. */
  lemma ExportReadsFormat(t: TimeOfDay)
    ensures |Format(t)| >= 2 && Parse(PadHour(Format(t)), TwoDigit) == Some(t)
  {
    FormatSecondChar(t);
    FormatParseTwoDigit(t);
  }

  /** An event whose times the edit dialog wrote is never skipped: both times read back exactly. */
  lemma EditorTimes(e: ScheduleEvent, start: TimeOfDay, end: TimeOfDay)
    requires e.startTime == Format(start) && e.endTime == Format(end)
    ensures EventTimes(e) == Some((start, end))
  {
    ExportReadsFormat(start);
    ExportReadsFormat(end);
  }

  /**
   * An exported event is dated by `nextOrSame`, a date in the week from
   * `today` on the event's weekday, and its DTSTART and DTEND read back as
   * that date at the parsed times.
   */
  lemma ExportedTimes(e: ScheduleEvent, today: CivilDate, stamp: string, start: TimeOfDay, end: TimeOfDay)
    requires EventTimes(e) == Some((start, end))
    ensures VEvent(e, today, stamp).Some?
    ensures var block := VEvent(e, today, stamp).value;
            var date := NextOrSame(today, e.day);
            && WeekdayOf(date) == e.day
            && DayNumber(today) <= DayNumber(date) <= DayNumber(today) + 6
            && block[3] == "DTSTART:" + BasicDateTime(date, start, 0)
            && block[4] == "DTEND:" + BasicDateTime(date, end, 0)
            && block[5] == "RRULE:FREQ=WEEKLY"
            && (date.year <= 9999 ==>
                  && ReadBasicDateTime(BasicDateTime(date, start, 0)) == Some((date, start, 0))
                  && ReadBasicDateTime(BasicDateTime(date, end, 0)) == Some((date, end, 0)))
  {
    var date := NextOrSame(today, e.day);
    assert VEvent(e, today, stamp) == Some(Block(e, stamp, date, start, end));
    BlockTimes(e, stamp, date, start, end);
    if date.year <= 9999 {
      BasicDateTimeRoundTrip(date, start, 0);
      BasicDateTimeRoundTrip(date, end, 0);
    }
  }

  /**
   * Exported on Friday 16 October 2026, a Wednesday class from "10:00 AM"
   * to "11:00 AM" starts on Wednesday 21 October at 10:00 and ends there
   * at 11:00, repeating weekly.
   */
  lemma WednesdayExample(e: ScheduleEvent, today: CivilDate, stamp: string)
    requires e.startTime == "10:00 AM" && e.endTime == "11:00 AM" && e.day == WEDNESDAY
    requires today == Date(2026, 10, 16)
    ensures var block := VEvent(e, today, stamp);
            var date := NextOrSame(today, e.day);
            && date == Date(2026, 10, 21)
            && block.Some?
            && block.value[3] == "DTSTART:" + BasicDateTime(date, At(10, 0), 0)
            && block.value[4] == "DTEND:" + BasicDateTime(date, At(11, 0), 0)
            && block.value[5] == "RRULE:FREQ=WEEKLY"
  {
    assert EventTimes(e) == Some((At(10, 0), At(11, 0))) by {
      FormatExamples();
      EditorTimes(e, At(10, 0), At(11, 0));
    }
    NextWednesdayExample();
    ExportedTimes(e, today, stamp, At(10, 0), At(11, 0));
  }

  // ---------------------------------------------------------------------
  // The exporter

  /** Appending the block of element `i` to the blocks of the first `i` elements gives those of the first `i + 1`. */
  lemma BlocksStep<T>(lines: seq<string>, s: seq<T>, i: nat, block: T -> seq<string>)
    requires i < |s|
    ensures lines + Blocks(s[..i], block) + block(s[i]) == lines + Blocks(s[..i + 1], block)
  {
    assert s[..i + 1][..i] == s[..i];
  }

  /** The block of an event whose padded times parse to `start` and `end`; nothing when either fails. */
  lemma ParsedBlock(e: ScheduleEvent, today: CivilDate, stamp: string, start: Option<TimeOfDay>, end: Option<TimeOfDay>)
    requires |e.startTime| >= 2 && |e.endTime| >= 2
    requires start == Parse(PadHour(e.startTime), TwoDigit) && end == Parse(PadHour(e.endTime), TwoDigit)
    ensures start.Some? && end.Some? ==>
              EventBlock(today, stamp)(e) == Block(e, stamp, NextOrSame(today, e.day), start.value, end.value)
    ensures start.None? || end.None? ==> EventBlock(today, stamp)(e) == []
  {
  }

  /** An event with a time shorter than two characters is skipped. */
  lemma NoTimesBlock(e: ScheduleEvent, today: CivilDate, stamp: string)
    requires |e.startTime| < 2 || |e.endTime| < 2
    ensures EventBlock(today, stamp)(e) == []
  {
  }

  /**
   * The appends of one exported event, in order; `dtStart` and `dtEnd` are
   * the formatted start and end.
   */
  method AppendBlock(lines: seq<string>, event: ScheduleEvent, stamp: string, dtStart: string, dtEnd: string)
    returns (out: seq<string>)
    ensures out == lines + (Opening(event, stamp, dtStart, dtEnd) + Describe(event) + ["END:VEVENT"])
  {
    out := AppendOpening(lines, event, stamp, dtStart, dtEnd);
    out := AppendDescription(out, event);
    out := out + ["END:VEVENT"];
  }

  /** The `BEGIN:VEVENT` through `RRULE` lines of one event. */
  method AppendOpening(lines: seq<string>, event: ScheduleEvent, stamp: string, dtStart: string, dtEnd: string)
    returns (out: seq<string>)
    ensures out == lines + Opening(event, stamp, dtStart, dtEnd)
  {
    out := lines + ["BEGIN:VEVENT"];
    out := out + ["UID:" + event.id];
    out := out + ["DTSTAMP:" + stamp];
    out := out + ["DTSTART:" + dtStart];
    out := out + ["DTEND:" + dtEnd];
    out := out + ["RRULE:FREQ=WEEKLY"];
  }

  /** The `SUMMARY` line, then `LOCATION` and `DESCRIPTION` when the event has them. */
  method AppendDescription(lines: seq<string>, event: ScheduleEvent) returns (out: seq<string>)
    ensures out == lines + Describe(event)
  {
    out := lines + ["SUMMARY:" + event.title];
    if event.location.Some? {
      out := out + ["LOCATION:" + event.location.value];
    }
    if event.notes.Some? {
      out := out + ["DESCRIPTION:" + event.notes.value];
    }
  }


  /** One turn of the exporter's loop: the event's lines, or nothing when reading a time fails. */
  method AppendEvent(lines: seq<string>, event: ScheduleEvent, today: CivilDate, stamp: string)
    returns (out: seq<string>)
    ensures out == lines + EventBlock(today, stamp)(event)
  {
    out := lines;
    if |event.startTime| >= 2 && |event.endTime| >= 2 {
      var c1 := if event.startTime[1] == ':' then "0" else "";
      var c2 := if event.endTime[1] == ':' then "0" else "";
      var eventDate := NextOrSame(today, event.day);
      var startTime := Parse(c1 + event.startTime, TwoDigit);
      var endTime := Parse(c2 + event.endTime, TwoDigit);
      ParsedBlock(event, today, stamp, startTime, endTime);
      if startTime.Some? && endTime.Some? {
        var dtStart := BasicDateTime(eventDate, startTime.value, 0);
        var dtEnd := BasicDateTime(eventDate, endTime.value, 0);
        out := AppendBlock(lines, event, stamp, dtStart, dtEnd);
      }
    } else {
      NoTimesBlock(event, today, stamp);
    }
  }

  /** The exporter's loop over the events, in order. */
  method AppendEvents(lines: seq<string>, events: seq<ScheduleEvent>, today: CivilDate, stamp: string)
    returns (out: seq<string>)
    ensures out == lines + EventLines(events, today, stamp)
  {
    out := lines;
    assert events[..0] == [];
    for i := 0 to |events|
      invariant out == lines + Blocks(events[..i], EventBlock(today, stamp))
    {
      BlocksStep(lines, events, i, EventBlock(today, stamp));
      out := AppendEvent(out, events[i], today, stamp);
    }
    assert events[..|events|] == events;
  }

  /**
   * `createIcsFromSchedule`: `today` stands for `LocalDate.now()` and `now`
   * for the UTC clock reading written as DTSTAMP.
   */
  method CreateIcsFromSchedule(events: seq<ScheduleEvent>, prodId: string, today: CivilDate, now: Instant)
    returns (ics: string)
    ensures ics == Unlines(CalendarLines(events, prodId, today, StampText(now)))
  {
    var lines: seq<string> := [];
    lines := lines + ["BEGIN:VCALENDAR"];
    lines := lines + ["VERSION:2.0"];
    lines := lines + ["PRODID:" + prodId];
    lines := lines + ["CALSCALE:GREGORIAN"];
    assert lines == Header(prodId);
    var stamp := StampText(now);
    lines := AppendEvents(lines, events, today, stamp);
    lines := lines + ["END:VCALENDAR"];
    assert lines == CalendarLines(events, prodId, today, stamp);
    ics := Unlines(lines);
  }
}
