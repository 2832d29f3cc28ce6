# myCal — a verified model of the schedule core

myCal is an Android app that keeps a weekly timetable. The user scans a
printed schedule. An AI model reads the scan and answers with the events as
JSON between `<JSON>` tags, or with an explanation between `<NA>` tags. The
app imports those events, lets the user edit, delete and drag them between
days, and exports the week as an iCalendar (`.ics`) file.

This Dafny project models the app's core and proves properties of it:

- **The schedule store** (ScheduleScreen.kt):
  - the `ScheduleEvent` record;
  - `parseScheduleEvents`, which falls back to an empty list;
  - the `DayOfWeek` enum and its lenient serializer;
  - the `ScheduleViewModel` class, with `addEvent`, `deleteEvent`, `updateEvent`, `moveEvent` and the `eventsByDay` grouping.
- **The edit dialog's time handling** (EditEventDialogue.kt):
  - the `"h:mm a"` formatter and `parseTime` with its fallback;
  - the ±30 minute `adjustTime`;
  - the time picker's 12-hour/24-hour conversions;
  - the copy that Save hands to `updateEvent`.
- **The iCalendar exporter** `createIcsFromSchedule` (ConvertToICS.kt), with the slice of `java.time` it relies on:
  - proleptic Gregorian dates;
  - `plusDays`, `getDayOfWeek` and `nextOrSame`;
  - the `yyyyMMdd'T'HHmmss` pattern.
- **The scanner view model** (DocScanner.kt): `processScannedImage` once the AI call has returned or thrown, and `resetState`.

Module layout:

| module | contents |
|---|---|
| `Options` | nullable values |
| `Strings` | `indexOf`, `contains`, `substringAfter`/`substringBefore`, `trim`, `uppercase` |
| `Digits` | decimal printing and reading, as java.time does it |
| `Lists` | `filter`, the stable `sortedBy`, `MutableList.remove`, `coerceIn` |
| `Days` | the `DayOfWeek` enum and its serializer |
| `Clock` | times of day and the edit dialog |
| `Dates` | civil dates and the basic date-time pattern |
| `Schedule` | the event record and `ScheduleViewModel` |
| `Ics` | the exporter |
| `Scanner` | `ScannerViewModel` |

How the source is represented:

- `ScheduleViewModel` and `ScannerViewModel` are Dafny classes.
- Their observable fields (`events`, and `isLoading`, `generatedText`, `showInfoPopup`, `scanSuccess`) are class fields, which the methods reassign as the Kotlin code does.
- The exporter's `StringBuilder` is a sequence of lines that its methods append to, in the source's order.
- Everything else is a pure function.

## Model

All source paths are under `app/src/main/java/com/approid/mycal/`.

| member | source | states |
|---|---|---|
| Days.Ordinal | app/src/main/java/com/approid/mycal/ScheduleScreen.kt:123-125 | the seven constants have ordinals 0..6 in declaration order |
| Days.OrdinalInjective | app/src/main/java/com/approid/mycal/ScheduleScreen.kt:209 | two days have the same ordinal exactly when they are the same day, so sorting by ordinal groups events by day |
| Days.Name | app/src/main/java/com/approid/mycal/ScheduleScreen.kt:140-142 | `serialize` writes the constant's name, which is upper-case ASCII |
| Days.ValueOf | app/src/main/java/com/approid/mycal/ScheduleScreen.kt:153 | `valueOf` yields a day exactly when the string is that day's name, and throws (None) otherwise |
| Days.Deserialize | app/src/main/java/com/approid/mycal/ScheduleScreen.kt:148-160 | the day whose name is the upper-cased string, or MONDAY exactly when the upper-cased string is no day's name |
| Days.DeserializeNamed | app/src/main/java/com/approid/mycal/ScheduleScreen.kt:148-160 | any string whose upper case is a day's name deserializes to that day |
| Days.DeserializeFallback | app/src/main/java/com/approid/mycal/ScheduleScreen.kt:154-159 | any string whose upper case is not a day's name deserializes to MONDAY instead of failing |
| Days.DeserializeSerialize | app/src/main/java/com/approid/mycal/ScheduleScreen.kt:140-160 | what `serialize` writes, and its lower-case spelling, `deserialize` reads back as the same day |
| Days.DeserializeUnknownExample | app/src/main/java/com/approid/mycal/ScheduleScreen.kt:151-158 | "tuesday" reads as TUESDAY and "Funday" as MONDAY |
| Strings.IndexFrom | app/src/main/java/com/approid/mycal/DocScanner.kt:94 | the result is the first occurrence at or after `from`, and None means no occurrence there |
| Strings.IndexOf | app/src/main/java/com/approid/mycal/DocScanner.kt:94 | the first occurrence of the pattern, and None exactly when there is none |
| Strings.Contains | app/src/main/java/com/approid/mycal/DocScanner.kt:92 | true exactly when the pattern occurs somewhere |
| Strings.SubstringAfter | app/src/main/java/com/approid/mycal/DocScanner.kt:94 | without the delimiter the whole string; otherwise the suffix right after the first occurrence of the delimiter, with no earlier occurrence |
| Strings.SubstringBefore | app/src/main/java/com/approid/mycal/DocScanner.kt:94 | without the delimiter the whole string; otherwise the prefix ending at the first occurrence of the delimiter, which does not occur earlier |
| Strings.FirstOccurrenceAfter | app/src/main/java/com/approid/mycal/DocScanner.kt:94 | a tag absent from the prefix `a` is first found right after `a` |
| Strings.BetweenTags | app/src/main/java/com/approid/mycal/DocScanner.kt:94 | `substringAfter(open).substringBefore(close)` recovers exactly the body written between the first opening tag and the next closing tag |
| Strings.AfterTagUnclosed | app/src/main/java/com/approid/mycal/DocScanner.kt:94 | without a closing tag the whole remainder after the opening tag is taken |
| Strings.LeadingWhitespace | app/src/main/java/com/approid/mycal/DocScanner.kt:103 | the length of the maximal whitespace run at the start |
| Strings.TrimStart | app/src/main/java/com/approid/mycal/DocScanner.kt:103 | the result is a suffix of the input, the removed prefix is all whitespace, and the result does not start with whitespace |
| Strings.TrimEnd | app/src/main/java/com/approid/mycal/DocScanner.kt:103 | the result is a prefix of the input, the removed suffix is all whitespace, and the result does not end with whitespace |
| Strings.Trim | app/src/main/java/com/approid/mycal/DocScanner.kt:103 | the result begins and ends with a non-whitespace character, or is empty |
| Strings.IsWhitespace | app/src/main/java/com/approid/mycal/DocScanner.kt:103 | Kotlin's `Char.isWhitespace()` on the JVM: the ASCII controls U+0009..U+000D and U+001C..U+001F, the space and the Unicode space, line and paragraph separators; `Trim` and its lemmas are stated over it |
| Strings.TrimPadded | app/src/main/java/com/approid/mycal/DocScanner.kt:103 | trimming whitespace padding around a trimmed core gives exactly that core |
| Strings.UpperCaseOfUpper | app/src/main/java/com/approid/mycal/ScheduleScreen.kt:153 | upper-casing leaves upper-case ASCII unchanged and undoes ASCII lower-casing |
| Strings.UpperCase | app/src/main/java/com/approid/mycal/ScheduleScreen.kt:153 | same length; a–z become A–Z, and a character changes exactly when it is a–z, dotless i or long s |
| Strings.UpperChar | app/src/main/java/com/approid/mycal/ScheduleScreen.kt:153 | `Char.uppercaseChar()` for a–z, dotless i (to I) and long s (to S), every other character kept; `UpperCase` states what it does to a string |
| Digits.Decimal | app/src/main/java/com/approid/mycal/EditEventDialogue.kt:58 | the unpadded `h` text of `n`: one or more digits whose value is `n`, a single digit exactly when `n < 10` |
| Digits.DecimalLength | app/src/main/java/com/approid/mycal/EditEventDialogue.kt:58 | a number below 10^k takes at most k digits |
| Digits.Padded | app/src/main/java/com/approid/mycal/ConvertToICS.kt:31 | zero-padded digits whose value is `n` and whose length is exactly the width when `n` fits |
| Digits.LeadingZeros | app/src/main/java/com/approid/mycal/ConvertToICS.kt:47-57 | leading zeros do not change the value read from a digit run |
| Digits.LeadingDigits | app/src/main/java/com/approid/mycal/EditEventDialogue.kt:63 | the maximal run of digits at the start of the text |
| Digits.LeadingDigitsOf | app/src/main/java/com/approid/mycal/EditEventDialogue.kt:63 | a digit run followed by a non-digit is read whole as the hour field |
| Clock.At | app/src/main/java/com/approid/mycal/EditEventDialogue.kt:304 | `LocalTime.of(hour, minute)` has that hour and minute |
| Clock.Parse | app/src/main/java/com/approid/mycal/EditEventDialogue.kt:61-67 | a successful parse reads at least six characters, and the hour is before noon exactly when the marker is "AM"; `ParseMeaning` states which texts parse and to what |
| Clock.ReadClock | app/src/main/java/com/approid/mycal/EditEventDialogue.kt:63 | succeeds exactly on ":mm AM" or ":mm PM" with minute digits worth at most 59 after hour digits worth at most 12; the hour is then the hour digits modulo 12, morning exactly on "AM", and the minute is the minute digits |
| Clock.ParseMeaning | app/src/main/java/com/approid/mycal/EditEventDialogue.kt:61-67 | a text parses exactly when it is 1 to 19 hour digits (2 for "hh") worth at most 12, a colon, two minute digits worth at most 59, a space and "AM" or "PM"; the time's hour is the hour digits modulo 12, plus 12 after "PM", and its minute the minute digits |
| Clock.ParseShape | app/src/main/java/com/approid/mycal/EditEventDialogue.kt:63 | only text of hour digits, a colon and six characters in all after them can parse |
| Clock.ParseHourZero | app/src/main/java/com/approid/mycal/EditEventDialogue.kt:63 | "0:30 AM" reads as 00:30, since the SMART resolver admits clock hour 0 |
| Clock.ParseTwelveAm | app/src/main/java/com/approid/mycal/EditEventDialogue.kt:63 | "12:05 AM" reads as 00:05 |
| Clock.ParseTwelvePm | app/src/main/java/com/approid/mycal/EditEventDialogue.kt:63 | "12:05 PM" reads as 12:05 |
| Clock.ParseRejects | app/src/main/java/com/approid/mycal/EditEventDialogue.kt:63 | "13:00 PM", "9:5 AM" and "9:05 am" fail with "h:mm a", and "9:05 AM" fails with "hh:mm a" |
| Clock.ParseTime | app/src/main/java/com/approid/mycal/EditEventDialogue.kt:61-67 | a text the parser accepts gives its reading, and any other text gives the fallback |
| Clock.ClockHour | app/src/main/java/com/approid/mycal/EditEventDialogue.kt:58 | the `h` field lies in 1..12 |
| Clock.AmPm | app/src/main/java/com/approid/mycal/EditEventDialogue.kt:58 | the `a` field is "AM" or "PM" |
| Clock.Format | app/src/main/java/com/approid/mycal/EditEventDialogue.kt:58 | "h:mm a" text is seven characters for a one-digit clock hour and eight otherwise |
| Clock.ParseSplit | app/src/main/java/com/approid/mycal/EditEventDialogue.kt:63 | the parser takes the leading digits as the hour and reads the six characters after them as minutes and marker |
| Clock.ClockHourAndMarker | app/src/main/java/com/approid/mycal/EditEventDialogue.kt:58 | the `h` field lies in 1..12 and, with the `a` marker, determines the hour of day |
| Clock.ParseWithHourText | app/src/main/java/com/approid/mycal/EditEventDialogue.kt:58-63 | any hour text of the right value and width, followed by the formatter's minutes and marker, parses back to the time |
| Clock.ReadClockOfFormat | app/src/main/java/com/approid/mycal/EditEventDialogue.kt:58-63 | the formatter's minutes and marker after an hour text of the right value read back as the time |
| Clock.FormatParse | app/src/main/java/com/approid/mycal/EditEventDialogue.kt:58-67 | for every minute of the day, what the "h:mm a" formatter writes the parser reads back |
| Clock.ParseTimeOfFormat | app/src/main/java/com/approid/mycal/EditEventDialogue.kt:61-67 | `parseTime` of a formatted time is that time, whatever the fallback |
| Clock.FormatParseTwoDigit | app/src/main/java/com/approid/mycal/ConvertToICS.kt:47-57 | the "hh:mm a" parser reads the formatter's text once a one-digit hour gets a leading zero, and two-digit hours as they are |
| Clock.FormatExamples | app/src/main/java/com/approid/mycal/EditEventDialogue.kt:58 | 10:00 and 11:00 are written "10:00 AM" and "11:00 AM" |
| Clock.FormatMorningHour | app/src/main/java/com/approid/mycal/EditEventDialogue.kt:58 | a whole morning hour is written as its decimal hour, ":00" and " AM" |
| Clock.PlusMinutes | app/src/main/java/com/approid/mycal/EditEventDialogue.kt:90 | `plusMinutes(n)` is the time plus `n` minutes, wrapped into one day, for negative `n` too |
| Clock.PlusMinutesCompose | app/src/main/java/com/approid/mycal/EditEventDialogue.kt:90 | adding `a` then `b` minutes is adding `a + b` |
| Clock.PlusMinutesInverse | app/src/main/java/com/approid/mycal/EditEventDialogue.kt:90 | subtracting what was added gives back the same time |
| Clock.AdjustTime | app/src/main/java/com/approid/mycal/EditEventDialogue.kt:88-91 | the new text parses, as the old text's reading (or the fallback) moved by `amount` minutes |
| Clock.AdjustTimeShifts | app/src/main/java/com/approid/mycal/EditEventDialogue.kt:88-91 | an adjusted time text reads back as the old reading shifted by `amount`, wrapped around midnight |
| Clock.AdjustFormatted | app/src/main/java/com/approid/mycal/EditEventDialogue.kt:88-91 | adjusting a formatted time is formatting the shifted time |
| Clock.AdjustThenBack | app/src/main/java/com/approid/mycal/EditEventDialogue.kt:88-91 | adjusting by `amount` and then by `-amount` restores a formatted time |
| Clock.AdjustTimeUndo | app/src/main/java/com/approid/mycal/EditEventDialogue.kt:88-91 | the +30 and −30 buttons undo each other on a formatted time, across midnight too |
| Clock.InitialSelection | app/src/main/java/com/approid/mycal/EditEventDialogue.kt:268-270 | the picker opens on an hour in 1..12 congruent to the hour of day modulo 12, the same minute, and "AM" exactly before noon |
| Clock.Hour24 | app/src/main/java/com/approid/mycal/EditEventDialogue.kt:299-303 | the OK button's 24-hour hour lies in 0..23, is congruent to the wheel hour modulo 12 and is before noon exactly on "AM"; any other marker gives 0 |
| Clock.SelectedTime | app/src/main/java/com/approid/mycal/EditEventDialogue.kt:299-304 | the time has the wheel's minute; for "AM" or "PM" its hour is the wheel hour modulo 12, before noon exactly on "AM"; any other marker gives hour 0 |
| Clock.PickerRoundTrip | app/src/main/java/com/approid/mycal/EditEventDialogue.kt:268-304 | opening the picker and pressing OK straight away gives back the initial time |
| Clock.PickerRoundTripBack | app/src/main/java/com/approid/mycal/EditEventDialogue.kt:264-304 | any wheel positions survive a trip through the 24-hour time |
| Dates.WeekdayOf | app/src/main/java/com/approid/mycal/ConvertToICS.kt:55 | the weekday's ordinal is the day number modulo 7, counting from Monday 0001-01-01 |
| Dates.DayNumber | app/src/main/java/com/approid/mycal/ConvertToICS.kt:55 | a date's day number lies within its year: past the days of the years before, and short of those plus the days of its own year |
| Dates.NextDay | app/src/main/java/com/approid/mycal/ConvertToICS.kt:55 | the next valid date has the next day number |
| Dates.PlusDays | app/src/main/java/com/approid/mycal/ConvertToICS.kt:55 | `plusDays(n)` lands `n` day numbers later |
| Dates.NextOrSameOffset | app/src/main/java/com/approid/mycal/ConvertToICS.kt:55 | `nextOrSame` moves fewer than 7 days and lands on the wanted weekday |
| Dates.NextOrSame | app/src/main/java/com/approid/mycal/ConvertToICS.kt:55 | the result falls on the wanted weekday, within the six days from `today` on |
| Dates.NextOrSameUnique | app/src/main/java/com/approid/mycal/ConvertToICS.kt:55 | it is the only such date: any date within that week on that weekday is the result |
| Dates.DayNumberInjective | app/src/main/java/com/approid/mycal/ConvertToICS.kt:55 | distinct valid dates have distinct day numbers |
| Dates.PlusDaysOffset | app/src/main/java/com/approid/mycal/ConvertToICS.kt:55 | a date `m` days after `today` is `today.plusDays(m)` |
| Dates.NextWednesdayExample | app/src/main/java/com/approid/mycal/ConvertToICS.kt:55 | 16 October 2026 is a Friday; its next-or-same Wednesday is 21 October and its next-or-same Friday is itself |
| Dates.YearText | app/src/main/java/com/approid/mycal/ConvertToICS.kt:31 | `yyyy` writes four digits with the year's value up to 9999, and a leading '+' beyond |
| Dates.DateText | app/src/main/java/com/approid/mycal/ConvertToICS.kt:31 | up to year 9999, `yyyyMMdd` is eight digits |
| Dates.TimeText | app/src/main/java/com/approid/mycal/ConvertToICS.kt:31 | `HHmmss` is six digits |
| Dates.BasicDateTime | app/src/main/java/com/approid/mycal/ConvertToICS.kt:31 | up to year 9999, fifteen characters: eight digits, 'T' and six digits |
| Dates.DateTextFields | app/src/main/java/com/approid/mycal/ConvertToICS.kt:31 | `yyyyMMdd` holds the year, month and day in its three digit fields |
| Dates.TimeTextFields | app/src/main/java/com/approid/mycal/ConvertToICS.kt:31 | `HHmmss` holds the hour, minute and second in its three digit fields |
| Dates.BasicDateTimeRoundTrip | app/src/main/java/com/approid/mycal/ConvertToICS.kt:59-69 | for years up to 9999 the 15-character date-time text reads back as the same date and time |
| Dates.BasicDateTimeWideYear | app/src/main/java/com/approid/mycal/ConvertToICS.kt:31 | past year 9999 the text starts with '+' |
| Lists.KeyFilter | app/src/main/java/com/approid/mycal/ScheduleScreen.kt:198 | `filter` keeps only elements of the given key, and no more elements than the input has |
| Lists.KeyFilterMembers | app/src/main/java/com/approid/mycal/ScheduleScreen.kt:198 | the filter holds exactly the input's elements of that key |
| Lists.KeyExclude | app/src/main/java/com/approid/mycal/ScheduleScreen.kt:205 | `filter { != }` keeps only elements of other keys |
| Lists.KeyExcludeMembers | app/src/main/java/com/approid/mycal/ScheduleScreen.kt:205 | the exclusion holds exactly the input's elements of other keys |
| Lists.KeyFilterOfExclude | app/src/main/java/com/approid/mycal/ScheduleScreen.kt:205 | excluding one key leaves every other key's elements exactly as they were, in order |
| Lists.KeyPartition | app/src/main/java/com/approid/mycal/ScheduleScreen.kt:198-205 | the filter and the exclusion together are a permutation of the input |
| Lists.KeyFilterConcat | app/src/main/java/com/approid/mycal/ScheduleScreen.kt:209 | filtering a concatenation filters each part |
| Lists.Insert | app/src/main/java/com/approid/mycal/ScheduleScreen.kt:209 | insertion adds exactly the one element |
| Lists.InsertSorted | app/src/main/java/com/approid/mycal/ScheduleScreen.kt:209 | insertion into a sorted sequence keeps it sorted |
| Lists.InsertStable | app/src/main/java/com/approid/mycal/ScheduleScreen.kt:209 | insertion only passes over smaller keys, so each key's elements keep their order |
| Lists.SortBy | app/src/main/java/com/approid/mycal/ScheduleScreen.kt:209 | `sortedBy` returns a sorted permutation in which the elements of each key keep their input order (stability) |
| Lists.SortedByDetermined | app/src/main/java/com/approid/mycal/ScheduleScreen.kt:209 | two sorted sequences with the same elements of each key, in the same order, are equal, so a stable sort's result is unique |
| Lists.RemoveFirst | app/src/main/java/com/approid/mycal/ScheduleScreen.kt:195 | removing an absent element changes nothing |
| Lists.RemoveFirstAt | app/src/main/java/com/approid/mycal/ScheduleScreen.kt:194-195 | removing the element first found at index `i` takes out exactly index `i` |
| Lists.CoerceIn | app/src/main/java/com/approid/mycal/ScheduleScreen.kt:200 | the result lies within the bounds, equals the value when it does, and is the nearer bound otherwise |
| Schedule.FromRecord | app/src/main/java/com/approid/mycal/ScheduleScreen.kt:97-111 | a decoded element keeps its title, times, location and notes, gets its own id or the default one, and its day is deserialized |
| Schedule.ParseScheduleEvents | app/src/main/java/com/approid/mycal/ScheduleScreen.kt:113-121 | a failed decode gives the empty list; otherwise one event per element, in order, with its fields, its id or a fresh one, and its deserialized day |
| Schedule.FindId | app/src/main/java/com/approid/mycal/ScheduleScreen.kt:194 | `find` yields the first event with that id, and None exactly when no event has it |
| Schedule.WithoutId | app/src/main/java/com/approid/mycal/ScheduleScreen.kt:182 | every kept event is an input event without that id, and every event without it is kept |
| Schedule.WithoutIdConcat | app/src/main/java/com/approid/mycal/ScheduleScreen.kt:182 | deletion works piece by piece, so the kept events keep their order |
| Schedule.WithoutIdAbsent | app/src/main/java/com/approid/mycal/ScheduleScreen.kt:182 | deleting an id no event has changes nothing |
| Schedule.ReplaceId | app/src/main/java/com/approid/mycal/ScheduleScreen.kt:186 | same length; every event with the id becomes the update and every other stays |
| Schedule.ReplaceIdIdempotent | app/src/main/java/com/approid/mycal/ScheduleScreen.kt:186 | updating twice with the same event is updating once |
| Schedule.ReplaceIdAt | app/src/main/java/com/approid/mycal/ScheduleScreen.kt:186 | with unique ids, updating rewrites exactly the one index |
| Schedule.OnDay | app/src/main/java/com/approid/mycal/ScheduleScreen.kt:198 | the day filter keeps only events of that day |
| Schedule.OnDayMembers | app/src/main/java/com/approid/mycal/ScheduleScreen.kt:198 | the day filter holds exactly the events of that day |
| Schedule.PlacedFacts | app/src/main/java/com/approid/mycal/ScheduleScreen.kt:198-202 | the target day's list, after inserting the moved copy, holds that day's events plus the copy, all on the target day |
| Schedule.RegroupedElements | app/src/main/java/com/approid/mycal/ScheduleScreen.kt:198-205 | `otherEvents + targetDayEvents` is the remaining events plus the moved copy, nothing lost or duplicated |
| Schedule.RegroupedDays | app/src/main/java/com/approid/mycal/ScheduleScreen.kt:198-205 | after regrouping, the target day holds the placed list and every other day its old events, in order |
| Schedule.Regroup | app/src/main/java/com/approid/mycal/ScheduleScreen.kt:198-209 | the sorted regrouping is day-sorted, one longer than the remaining events, holds the placed list on the target day and the old events on every other day, and is a permutation of the remaining events plus the copy |
| Schedule.DaySortedDetermined | app/src/main/java/com/approid/mycal/ScheduleScreen.kt:209 | a day-sorted list is fixed by each day's events in order |
| Schedule.MoveOutcome | app/src/main/java/com/approid/mycal/ScheduleScreen.kt:190-210 | the list `moveEvent` builds meets the move promise (`MovedTo`) |
| Schedule.MovedToUnique | app/src/main/java/com/approid/mycal/ScheduleScreen.kt:190-210 | at most one list meets the move promise, so it specifies `moveEvent` completely |
| Schedule.MovedTo | app/src/main/java/com/approid/mycal/ScheduleScreen.kt:190-210 | the move promise: day-sorted, the target day holds its old events with the copy at the clamped index, every other day holds its old events in order, and nothing else is added |
| Schedule.DaysOf | app/src/main/java/com/approid/mycal/ScheduleScreen.kt:172 | `groupBy`'s keys are exactly the days that have an event |
| Schedule.StartKey | app/src/main/java/com/approid/mycal/ScheduleScreen.kt:173-174 | `parseTime(it.startTime)` compared as a `LocalTime` to the nanosecond: a parsed time on its whole minute, a failed parse as `now`; `StartKeyOrder` states the order |
| Schedule.StartKeyOrder | app/src/main/java/com/approid/mycal/ScheduleScreen.kt:173-174 | an event whose start time parses sorts before one that does not exactly when `now` is past the parsed time, and after it exactly when `now` is before it, within the same minute too |
| Schedule.DayGroup | app/src/main/java/com/approid/mycal/ScheduleScreen.kt:172-175 | a day's group is a permutation of that day's events, sorted by the start-time key, with events of equal key keeping their order in `events` |
| Schedule.EventsByDay | app/src/main/java/com/approid/mycal/ScheduleScreen.kt:171-175 | the map has a key exactly for each day with an event, and that key's value is the day's group at the same `now` |
| Schedule.EventsByDayMembers | app/src/main/java/com/approid/mycal/ScheduleScreen.kt:171-175 | an event is in the schedule exactly when it is listed under its own day |
| Schedule.FailedParseSortsAfter | app/src/main/java/com/approid/mycal/ScheduleScreen.kt:171-175 | on Monday, a "bad" start time listed before "10:00 AM" and grouped at 10:00:30 sorts after it: the group is ["10:00 AM", "bad"] |
| Schedule.OnDayOfOneDay | app/src/main/java/com/approid/mycal/ScheduleScreen.kt:172 | a list whose events are all on one day is that day's list |
| Schedule.SavedEvent | app/src/main/java/com/approid/mycal/EditEventDialogue.kt:178-185 | the saved copy keeps the id and the day and takes the dialog's title, times, location and notes, so location and notes are never null |
| Schedule.SaveUnedited | app/src/main/java/com/approid/mycal/EditEventDialogue.kt:78-186 | saving without an edit gives back the event, except that a null location or notes comes back as "" |
| Schedule.SaveKeepsIdAndDay | app/src/main/java/com/approid/mycal/EditEventDialogue.kt:178-186 | with unique ids, saving rewrites only the edited event with the dialog's title, times, location and notes, and every event keeps its id and day |
| Schedule.ScheduleViewModel.constructor | app/src/main/java/com/approid/mycal/ScheduleScreen.kt:167 | the schedule starts empty |
| Schedule.ScheduleViewModel.AddEvent | app/src/main/java/com/approid/mycal/ScheduleScreen.kt:177-179 | the event is appended and everything before it stays |
| Schedule.ScheduleViewModel.DeleteEvent | app/src/main/java/com/approid/mycal/ScheduleScreen.kt:181-183 | the events become the input without that id; deleting an absent id changes nothing |
| Schedule.ScheduleViewModel.UpdateEvent | app/src/main/java/com/approid/mycal/ScheduleScreen.kt:185-187 | every event with that id becomes the update; an absent id changes nothing |
| Schedule.ScheduleViewModel.MoveEvent | app/src/main/java/com/approid/mycal/ScheduleScreen.kt:190-210 | an unknown id changes nothing; otherwise the list is day-sorted and the dragged event's copy sits at the clamped index of its target day, with every other day and event kept in order |
| Ics.UnlinesConcat | app/src/main/java/com/approid/mycal/ConvertToICS.kt:88 | the builder's text of two runs of lines is the text of the first followed by that of the second |
| Ics.CountOfConcat | app/src/main/java/com/approid/mycal/ConvertToICS.kt:44-83 | occurrences of a line in a concatenation add up |
| Ics.Header | app/src/main/java/com/approid/mycal/ConvertToICS.kt:35-38 | four lines, BEGIN:VCALENDAR first and "PRODID:" with the product id third; no later line starts with 'B', so the header opens no VEVENT |
| Ics.PadHour | app/src/main/java/com/approid/mycal/ConvertToICS.kt:47-50 | a "0" goes before exactly those texts whose second character is ':' |
| Ics.EventTimes | app/src/main/java/com/approid/mycal/ConvertToICS.kt:47-57 | the `[1]` read, the padding and the two "hh:mm a" parses; `EventTimesMeaning` states exactly when both succeed |
| Ics.StampText | app/src/main/java/com/approid/mycal/ConvertToICS.kt:63 | DTSTAMP ends in 'Z', and up to year 9999 the text before it reads back as the instant's date, time and second |
| Ics.EventTimesMeaning | app/src/main/java/com/approid/mycal/ConvertToICS.kt:47-57 | an event is exported exactly when both times, a "0" put before a one-digit hour, are text the "hh:mm a" parser accepts |
| Ics.Describe | app/src/main/java/com/approid/mycal/ConvertToICS.kt:74-76 | "SUMMARY:" and the title first; "LOCATION:" and the location second exactly when present; "DESCRIPTION:" and the notes last exactly when present; nothing else |
| Ics.Opening | app/src/main/java/com/approid/mycal/ConvertToICS.kt:65-72 | BEGIN, UID, DTSTAMP, DTSTART, DTEND and the weekly RRULE, in that order |
| Ics.Block | app/src/main/java/com/approid/mycal/ConvertToICS.kt:65-77 | a block is 8 to 10 lines, opening with BEGIN:VEVENT and closing with END:VEVENT |
| Ics.BlockTimes | app/src/main/java/com/approid/mycal/ConvertToICS.kt:59-72 | a block's DTSTART and DTEND carry the date at the start and end time, followed by the weekly rule |
| Ics.VEvent | app/src/main/java/com/approid/mycal/ConvertToICS.kt:45-82 | an event yields a block exactly when both its times read, dated on the next-or-same day of its weekday |
| Ics.BlockOpensOnce | app/src/main/java/com/approid/mycal/ConvertToICS.kt:65-77 | each block holds exactly one BEGIN:VEVENT line |
| Ics.BlocksConcat | app/src/main/java/com/approid/mycal/ConvertToICS.kt:44-83 | the loop's output over a concatenation is that of each part |
| Ics.BlocksSkip | app/src/main/java/com/approid/mycal/ConvertToICS.kt:79-82 | an element whose block is empty leaves no trace |
| Ics.CalendarLines | app/src/main/java/com/approid/mycal/ConvertToICS.kt:35-86 | the output starts with the four header lines and ends with END:VCALENDAR, and is just those for no events |
| Ics.EventLines | app/src/main/java/com/approid/mycal/ConvertToICS.kt:44-83 | the loop's lines: each event's block in input order, none for an event whose times fail; stated by `EventLinesConcat`, `SkippedEvent` and `VEventCount` |
| Ics.EventLinesConcat | app/src/main/java/com/approid/mycal/ConvertToICS.kt:44-83 | exporting a list is exporting its parts one after the other |
| Ics.SkippedEvent | app/src/main/java/com/approid/mycal/ConvertToICS.kt:79-82 | an event whose times fail leaves no line behind, and the others are still exported |
| Ics.Exportable | app/src/main/java/com/approid/mycal/ConvertToICS.kt:45-82 | the exported events are input events whose times read |
| Ics.ExportableMembers | app/src/main/java/com/approid/mycal/ConvertToICS.kt:45-82 | an event is exported exactly when it is an input event whose times read |
| Ics.ExportableConcat | app/src/main/java/com/approid/mycal/ConvertToICS.kt:44-83 | the kept events keep their input order: keeping a concatenation keeps each part in turn |
| Ics.ExportableOne | app/src/main/java/com/approid/mycal/ConvertToICS.kt:45-82 | a single event is kept exactly when its times read |
| Ics.KeptConcat | app/src/main/java/com/approid/mycal/ConvertToICS.kt:44-83 | filtering a concatenation filters each part in turn |
| Ics.VEventCount | app/src/main/java/com/approid/mycal/ConvertToICS.kt:44-83 | the loop writes exactly one BEGIN:VEVENT per event whose times read |
| Ics.CalendarVEventCount | app/src/main/java/com/approid/mycal/ConvertToICS.kt:29-89 | the whole calendar has exactly one VEVENT per event whose times read |
| Ics.FormatSecondChar | app/src/main/java/com/approid/mycal/ConvertToICS.kt:47-50 | the edit dialog's text has ':' second exactly when the clock hour has one digit |
| Ics.ExportReadsFormat | app/src/main/java/com/approid/mycal/ConvertToICS.kt:47-57 | a time the edit dialog wrote is read back exactly by the exporter's padding and "hh:mm a" parser |
| Ics.EditorTimes | app/src/main/java/com/approid/mycal/ConvertToICS.kt:47-57 | an event whose times the edit dialog wrote is never skipped |
| Ics.ExportedTimes | app/src/main/java/com/approid/mycal/ConvertToICS.kt:55-72 | an exported event is dated within the week from today on its weekday, and its DTSTART and DTEND read back as that date at the parsed times |
| Ics.WednesdayExample | app/src/main/java/com/approid/mycal/ConvertToICS.kt:55-72 | exported on Friday 16 October 2026, a 10:00–11:00 AM Wednesday event starts on 21 October at 10:00 and ends at 11:00, weekly |
| Ics.ParsedBlock | app/src/main/java/com/approid/mycal/ConvertToICS.kt:47-77 | the loop body's lines are the dated block when both padded times parse, and nothing otherwise |
| Ics.NoTimesBlock | app/src/main/java/com/approid/mycal/ConvertToICS.kt:47-48 | a time shorter than two characters makes `[1]` throw, so the event is skipped |
| Ics.AppendOpening | app/src/main/java/com/approid/mycal/ConvertToICS.kt:65-72 | the six opening appends, in order |
| Ics.AppendDescription | app/src/main/java/com/approid/mycal/ConvertToICS.kt:74-76 | the SUMMARY append and the conditional LOCATION and DESCRIPTION appends |
| Ics.AppendBlock | app/src/main/java/com/approid/mycal/ConvertToICS.kt:65-77 | the appends of one exported event add its opening, description and END:VEVENT lines |
| Ics.AppendEvent | app/src/main/java/com/approid/mycal/ConvertToICS.kt:45-82 | one turn of the loop appends the event's block, or nothing when the `try` fails |
| Ics.AppendEvents | app/src/main/java/com/approid/mycal/ConvertToICS.kt:44-83 | the loop appends the blocks of all events in input order |
| Ics.CreateIcsFromSchedule | app/src/main/java/com/approid/mycal/ConvertToICS.kt:29-89 | the result is the text of the header, the exported blocks and the footer, one LF-terminated line each |
| Scanner.Classify | app/src/main/java/com/approid/mycal/DocScanner.kt:92-107 | a reply is JSON exactly when it contains `<JSON>`, info exactly when it contains `<NA>` but not `<JSON>`, and the info text is trimmed |
| Scanner.JsonBetweenTags | app/src/main/java/com/approid/mycal/DocScanner.kt:92-95 | a reply wrapping `body` in JSON tags yields exactly `body`, whatever surrounds it |
| Scanner.JsonUnclosed | app/src/main/java/com/approid/mycal/DocScanner.kt:94 | without `</JSON>` the whole remainder after `<JSON>` is taken |
| Scanner.InfoBetweenTags | app/src/main/java/com/approid/mycal/DocScanner.kt:101-103 | a reply without `<JSON>` wrapping padded text in NA tags yields the text without its padding |
| Scanner.ScannerViewModel.constructor | app/src/main/java/com/approid/mycal/DocScanner.kt:66-79 | all four state fields start false or null |
| Scanner.ScannerViewModel.ResetState | app/src/main/java/com/approid/mycal/DocScanner.kt:119-121 | the text is cleared and nothing else changes |
| Scanner.ScannerViewModel.ProcessScannedImage | app/src/main/java/com/approid/mycal/DocScanner.kt:84-114 | loading ends false; a thrown call sets "Failed to scan: " plus the message; a JSON reply imports the parsed events and sets success; an NA or unknown reply shows the popup with the text or the fixed message; schedule and success are untouched except on JSON |
| Scanner.ScannerViewModel.ImportEvents | app/src/main/java/com/approid/mycal/DocScanner.kt:98 | the events are appended to the schedule in order |

## Left out

- The Compose UI is left out: dialogs, columns, the `ScrollablePicker` wheels, drag-and-drop gestures, `Log`/`println` and the navigation in MainActivity.kt. The model starts where these call into the core.
- The AI call `GeminiAPI.getScheduleFromImage` (network and images) is the `reply` parameter of `ProcessScannedImage`.
- The document scanner SDK, file handling and `shareIcsFile` are left out.
- The coroutine in `viewModelScope.launch` is left out; `ProcessScannedImage` runs its body in one step, with no interleaving.
- `ScannerViewModelFactory` only constructs a `ScannerViewModel`, so it is left out.
- DocScannerScreen.kt and ScannerViewModel.kt are commented out in the source, so they are not part of this model.
- `Json.decodeFromString` is the `decode` parameter of `Schedule.ParseScheduleEvents`: it returns the elements, or None where Kotlin throws. The JSON syntax itself is not modelled.
- `UUID.randomUUID()` is the `freshId` parameter.
- `LocalTime.now()` and `LocalDate.now()` are parameters.
- The default `prodId` of `createIcsFromSchedule` (ConvertToICS.kt:29) is not modelled: no call site relies on it, and `Ics.CreateIcsFromSchedule` takes the product id as a parameter.
- Clock.ParseTime: takes its fallback to the minute. `adjustTime` formats the result with "h:mm a", and the time picker reads only its hour and minute, so neither sees the seconds. `eventsByDay` does compare them, and `Schedule.StartKey` adds the seconds and nanoseconds of `now` back to the key.
- Schedule.EventsByDay: uses one `now` for every event, while the source calls `LocalTime.now()` on each failed parse during the sort, so two failed parses may read slightly different clocks there.
- Ics.CreateIcsFromSchedule: uses one DTSTAMP for all events, while the source reads the UTC clock once per event.
- Ics.CreateIcsFromSchedule: the `StringBuilder` is a sequence of lines that `Unlines` joins with LF, as `appendLine` does. Text values are neither escaped nor folded, because the source does neither.
- Ics.AppendEvent: the loop body is split into `AppendEvent`, `AppendBlock`, `AppendOpening` and `AppendDescription`.
- `event.day.toJavaDayOfWeek` (ConvertToICS.kt:55) is not defined in any source file. It is not part of this model; the model takes it to map each day to the `java.time` day of the same name.
- Dates.NextOrSame: dates before year 1 are not modelled.
- Dates.YearText: past year 9999 the body writes '+' and the year's decimal digits, as `yyyy` does; the contract only states the leading '+', not those digits.
- Strings.UpperCase: upper-cases a–z, dotless i (U+0131) and long s (U+017F) only. These are the only characters whose upper case can be a letter of a day's name, so `Deserialize` is exact. Other characters are kept unchanged.
- Scanner.ScannerViewModel.ProcessScannedImage: `scanSuccess` is never reset to false by the source, and the model keeps that.
