/**
 * The in-memory schedule (ScheduleScreen.kt): the `ScheduleEvent` record,
 * the fallback-to-empty JSON reading, the `ScheduleViewModel` whose
 * `events` list every edit replaces, and its `eventsByDay` grouping; plus
 * the copy the edit dialog's Save button hands to `updateEvent`
 * (EditEventDialogue.kt).
 */
module Schedule {
  import opened Options
  import opened Days
  import opened Clock
  import opened Lists

  /** One weekly slot. Times are the app's "h:mm a" strings, kept as text. */
  datatype ScheduleEvent = ScheduleEvent(
    id: string,
    title: string,
    startTime: string,
    endTime: string,
    day: DayOfWeek,
    location: Option<string>,
    notes: Option<string>)

  predicate UniqueIds(s: seq<ScheduleEvent>) {
    forall i, j :: 0 <= i < j < |s| ==> s[i].id != s[j].id
  }

  // ---------------------------------------------------------------------
  // Reading the AI's JSON

  /**
   * What the JSON decoder yields for one array element: the fields as
   * written, with `id` absent when the object has none and `day` still the
   * raw string that `DayOfWeekSerializer.deserialize` receives.
   */
  datatype EventRecord = EventRecord(
    id: Option<string>,
    title: string,
    startTime: string,
    endTime: string,
    day: string,
    location: Option<string>,
    notes: Option<string>)

  /**
   * `parseScheduleEvents`: `decode` stands for `Json.decodeFromString`
   * (`None` where it throws) and `freshId(i)` for the random UUID the
   * `id` default gives the `i`-th element.
   */
  function ParseScheduleEvents(json: string, decode: string -> Option<seq<EventRecord>>, freshId: nat -> string)
    : (r: seq<ScheduleEvent>)
    ensures decode(json).None? ==> r == []
    ensures decode(json).Some? ==> |r| == |decode(json).value|
    ensures decode(json).Some? ==> forall i :: 0 <= i < |r| ==>
              var rec := decode(json).value[i];
              && r[i].id == (if rec.id.Some? then rec.id.value else freshId(i))
              && r[i].day == Deserialize(rec.day)
              && r[i].title == rec.title && r[i].startTime == rec.startTime && r[i].endTime == rec.endTime
              && r[i].location == rec.location && r[i].notes == rec.notes
  {
    match decode(json)
    case None => []
    case Some(recs) =>
      var r := seq(|recs|, i requires 0 <= i < |recs| => FromRecord(recs[i], freshId(i)));
      assert forall i :: 0 <= i < |r| ==> r[i] == FromRecord(recs[i], freshId(i));
      r
  }

  /** One decoded element: a missing `id` takes the default `defaultId`, and the day name is deserialized. */
  function FromRecord(rec: EventRecord, defaultId: string): (e: ScheduleEvent)
    ensures e.id == if rec.id.Some? then rec.id.value else defaultId
    ensures e.day == Deserialize(rec.day)
    ensures e.title == rec.title && e.startTime == rec.startTime && e.endTime == rec.endTime
    ensures e.location == rec.location && e.notes == rec.notes
  {
    ScheduleEvent(rec.id.GetOr(defaultId), rec.title, rec.startTime, rec.endTime, Deserialize(rec.day), rec.location,
                  rec.notes)
  }

  // ---------------------------------------------------------------------
  // The list operations behind the view model

  /** `find { it.id == id }`, as the index of the first event with that id. */
  function FindId(s: seq<ScheduleEvent>, id: string): (r: Option<nat>)
    ensures r.Some? ==> r.value < |s| && s[r.value].id == id && forall j :: 0 <= j < r.value ==> s[j].id != id
    ensures r.None? ==> forall j :: 0 <= j < |s| ==> s[j].id != id
  {
    if s == [] then None
    else if s[0].id == id then Some(0)
    else match FindId(s[1..], id)
      case None => None
      case Some(j) => Some(j + 1)
  }

  /** `filterNot { it.id == id }`. */
  function WithoutId(s: seq<ScheduleEvent>, id: string): (r: seq<ScheduleEvent>)
    ensures forall i :: 0 <= i < |r| ==> r[i] in s && r[i].id != id
    ensures forall i :: 0 <= i < |s| && s[i].id != id ==> s[i] in r
  {
    if s == [] then []
    else (if s[0].id != id then [s[0]] else []) + WithoutId(s[1..], id)
  }

  /** Deleting works piece by piece, so the kept events stay in their order. */
  lemma {:induction false} WithoutIdConcat(a: seq<ScheduleEvent>, b: seq<ScheduleEvent>, id: string)
    ensures WithoutId(a + b, id) == WithoutId(a, id) + WithoutId(b, id)
  {
    if a == [] {
      assert a + b == b;
    } else {
      assert (a + b)[1..] == a[1..] + b;
      WithoutIdConcat(a[1..], b, id);
    }
  }

  /** Deleting an id no event has changes nothing. */
  lemma {:induction false} WithoutIdAbsent(s: seq<ScheduleEvent>, id: string)
    requires forall i :: 0 <= i < |s| ==> s[i].id != id
    ensures WithoutId(s, id) == s
  {
    if s != [] {
      WithoutIdAbsent(s[1..], id);
      assert s == [s[0]] + s[1..];
    }
  }

  /** `map { if (it.id == updated.id) updated else it }`. */
  function ReplaceId(s: seq<ScheduleEvent>, updated: ScheduleEvent): (r: seq<ScheduleEvent>)
    ensures |r| == |s|
    ensures forall i :: 0 <= i < |s| && s[i].id == updated.id ==> r[i] == updated
    ensures forall i :: 0 <= i < |s| && s[i].id != updated.id ==> r[i] == s[i]
  {
    if s == [] then []
    else [if s[0].id == updated.id then updated else s[0]] + ReplaceId(s[1..], updated)
  }

  /** Updating twice with the same event is updating once. */
  lemma ReplaceIdIdempotent(s: seq<ScheduleEvent>, updated: ScheduleEvent)
    ensures ReplaceId(ReplaceId(s, updated), updated) == ReplaceId(s, updated)
  {
  }

  /** With unique ids, updating the event at `i` rewrites index `i` and nothing else. */
  lemma ReplaceIdAt(s: seq<ScheduleEvent>, i: nat, updated: ScheduleEvent)
    requires UniqueIds(s) && i < |s| && s[i].id == updated.id
    ensures ReplaceId(s, updated) == s[i := updated]
  {
  }

  /** The event's day ordinal, the key `moveEvent` sorts by. */
  function DayKey(e: ScheduleEvent): int {
    Ordinal(e.day)
  }

  /** `filter { it.day == d }` (equal ordinals are equal days). */
  function OnDay(s: seq<ScheduleEvent>, d: DayOfWeek): (r: seq<ScheduleEvent>)
    ensures forall i :: 0 <= i < |r| ==> r[i].day == d
  {
    KeyFilter(s, DayKey, Ordinal(d))
  }

  /** A day's list holds exactly the events of that day. */
  lemma OnDayMembers(s: seq<ScheduleEvent>, d: DayOfWeek)
    ensures forall e :: e in OnDay(s, d) <==> e in s && e.day == d
  {
    KeyFilterMembers(s, DayKey, Ordinal(d));
    forall e ensures DayKey(e) == Ordinal(d) <==> e.day == d {
      OrdinalInjective(e.day, d);
    }
  }

  /** `filter { it.day != d }`. */
  function NotOnDay(s: seq<ScheduleEvent>, d: DayOfWeek): seq<ScheduleEvent> {
    KeyExclude(s, DayKey, Ordinal(d))
  }

  /** The target day's list with `m` inserted at `k`. */
  function Placed(rest: seq<ScheduleEvent>, m: ScheduleEvent, k: nat): seq<ScheduleEvent>
    requires k <= |OnDay(rest, m.day)|
  {
    var targets := OnDay(rest, m.day);
    targets[..k] + [m] + targets[k..]
  }

  /** The regrouped list `moveEvent` sorts: the other days' events, then the target day's. */
  function Regrouped(rest: seq<ScheduleEvent>, m: ScheduleEvent, k: nat): seq<ScheduleEvent>
    requires k <= |OnDay(rest, m.day)|
  {
    NotOnDay(rest, m.day) + Placed(rest, m, k)
  }

  lemma PlacedFacts(rest: seq<ScheduleEvent>, m: ScheduleEvent, k: nat)
    requires k <= |OnDay(rest, m.day)|
    ensures forall i :: 0 <= i < |Placed(rest, m, k)| ==> DayKey(Placed(rest, m, k)[i]) == Ordinal(m.day)
    ensures multiset(Placed(rest, m, k)) == multiset(OnDay(rest, m.day)) + multiset{m}
  {
    var targets := OnDay(rest, m.day);
    var placed := Placed(rest, m, k);
    assert targets == targets[..k] + targets[k..];
    forall i | 0 <= i < |placed| ensures DayKey(placed[i]) == Ordinal(m.day) {
      if i < k {
        assert placed[i] == targets[i];
      } else if i > k {
        assert placed[i] == targets[i - 1];
      }
    }
  }

  /** Regrouping loses and duplicates nothing. */
  lemma RegroupedElements(rest: seq<ScheduleEvent>, m: ScheduleEvent, k: nat)
    requires k <= |OnDay(rest, m.day)|
    ensures multiset(Regrouped(rest, m, k)) == multiset(rest) + multiset{m}
    ensures |Regrouped(rest, m, k)| == |rest| + 1
  {
    var others, placed := NotOnDay(rest, m.day), Placed(rest, m, k);
    PlacedFacts(rest, m, k);
    KeyPartition(rest, DayKey, Ordinal(m.day));
    calc {
      multiset(Regrouped(rest, m, k));
      multiset(others + placed);
      multiset(others) + multiset(placed);
      multiset(others) + multiset(OnDay(rest, m.day)) + multiset{m};
      multiset(rest) + multiset{m};
    }
    assert |multiset(Regrouped(rest, m, k))| == |rest| + 1;
  }

  /** After regrouping, the target day holds the placed list and every other day its old events. */
  lemma RegroupedDays(rest: seq<ScheduleEvent>, m: ScheduleEvent, k: nat, d: DayOfWeek)
    requires k <= |OnDay(rest, m.day)|
    ensures OnDay(Regrouped(rest, m, k), d) == if d == m.day then Placed(rest, m, k) else OnDay(rest, d)
  {
    var others, placed := NotOnDay(rest, m.day), Placed(rest, m, k);
    PlacedFacts(rest, m, k);
    KeyFilterConcat(others, placed, DayKey, Ordinal(d));
    if d == m.day {
      KeyFilterNone(others, DayKey, Ordinal(d));
      KeyFilterAll(placed, DayKey, Ordinal(d));
    } else {
      OrdinalInjective(d, m.day);
      KeyFilterOfExclude(rest, DayKey, Ordinal(m.day), Ordinal(d));
      KeyFilterNone(placed, DayKey, Ordinal(d));
    }
  }

  /**
   * The regrouping at the end of `moveEvent`: the other days' events and
   * the target day's list with `m` inserted at `k`, sorted stably by day.
   * The target day then holds exactly that list, every other day keeps its
   * events in order, and nothing is lost or duplicated.
   */
  lemma Regroup(rest: seq<ScheduleEvent>, m: ScheduleEvent, k: nat)
    requires k <= |OnDay(rest, m.day)|
    ensures var r := SortBy(Regrouped(rest, m, k), DayKey);
            && |r| == |rest| + 1
            && SortedBy(r, DayKey)
            && OnDay(r, m.day) == Placed(rest, m, k)
            && (forall d :: d != m.day ==> OnDay(r, d) == OnDay(rest, d))
            && multiset(r) == multiset(rest) + multiset{m}
  {
    RegroupedElements(rest, m, k);
    forall d ensures OnDay(SortBy(Regrouped(rest, m, k), DayKey), d) == OnDay(Regrouped(rest, m, k), d) {
    }
    forall d ensures OnDay(Regrouped(rest, m, k), d) == if d == m.day then Placed(rest, m, k) else OnDay(rest, d) {
      RegroupedDays(rest, m, k, d);
    }
  }

  /**
   * What `moveEvent` promises determines its result: a day-sorted list is
   * fixed by the events of each day, in order.
   */
  lemma DaySortedDetermined(a: seq<ScheduleEvent>, b: seq<ScheduleEvent>)
    requires SortedBy(a, DayKey) && SortedBy(b, DayKey)
    requires forall d :: OnDay(a, d) == OnDay(b, d)
    ensures a == b
  {
    forall v ensures KeyFilter(a, DayKey, v) == KeyFilter(b, DayKey, v) {
      if 0 <= v < 7 {
        assert OnDay(a, FromOrdinal(v)) == OnDay(b, FromOrdinal(v));
      } else {
        KeyFilterNone(a, DayKey, v);
        KeyFilterNone(b, DayKey, v);
      }
    }
    SortedByDetermined(a, b, DayKey);
  }

  /**
   * What `moveEvent` promises when `before[i]` is the dragged event: `after`
   * is sorted by day and keeps every event except the dragged one, whose
   * day becomes `targetDay`. That day's list is its remaining events with
   * the dragged event inserted at `targetIndex`, clamped to the list's
   * bounds. Every other day keeps its remaining events in order.
   */
  ghost predicate MovedTo(before: seq<ScheduleEvent>, after: seq<ScheduleEvent>, i: nat,
                          targetDay: DayOfWeek, targetIndex: int)
    requires i < |before|
  {
    var moved := before[i].(day := targetDay);
    var rest := before[..i] + before[i + 1..];
    var targets := OnDay(rest, targetDay);
    var k := CoerceIn(targetIndex, 0, |targets|);
    && |after| == |before|
    && SortedBy(after, DayKey)
    && OnDay(after, targetDay) == targets[..k] + [moved] + targets[k..]
    && (forall d :: d != targetDay ==> OnDay(after, d) == OnDay(rest, d))
    && multiset(after) == multiset(rest) + multiset{moved}
  }

  /** Sorting the regrouped list meets that promise. */
  lemma MoveOutcome(before: seq<ScheduleEvent>, i: nat, targetDay: DayOfWeek, targetIndex: int)
    requires i < |before|
    ensures var rest := before[..i] + before[i + 1..];
            var moved := before[i].(day := targetDay);
            var k := CoerceIn(targetIndex, 0, |OnDay(rest, targetDay)|);
            MovedTo(before, SortBy(Regrouped(rest, moved, k), DayKey), i, targetDay, targetIndex)
  {
    var rest := before[..i] + before[i + 1..];
    var moved := before[i].(day := targetDay);
    var k := CoerceIn(targetIndex, 0, |OnDay(rest, targetDay)|);
    Regroup(rest, moved, k);
  }

  /** The promise leaves no freedom: at most one list meets it. */
  lemma MovedToUnique(before: seq<ScheduleEvent>, a: seq<ScheduleEvent>, b: seq<ScheduleEvent>, i: nat,
                      targetDay: DayOfWeek, targetIndex: int)
    requires i < |before|
    requires MovedTo(before, a, i, targetDay, targetIndex) && MovedTo(before, b, i, targetDay, targetIndex)
    ensures a == b
  {
    forall d ensures OnDay(a, d) == OnDay(b, d) {
    }
    DaySortedDetermined(a, b);
  }

  // ---------------------------------------------------------------------
  // The grouping shown on screen

  const NanosPerMinute: int := 60_000_000_000

  /** `LocalTime.now()` to the nanosecond: nanoseconds since midnight. */
  type NanoOfDay = n: int | 0 <= n < MinutesPerDay * NanosPerMinute

  /**
   * The sort key of `eventsByDay`, `parseTime(it.startTime)` as a nano-of-day:
   * a parsed time falls on a whole minute, and a failed parse gives `now`
   * with its seconds and nanoseconds.
   */
  function StartKey(now: NanoOfDay): ScheduleEvent -> int {
    (e: ScheduleEvent) =>
      ParseTime(e.startTime, now / NanosPerMinute) * NanosPerMinute
      + (if ClockText(e.startTime, Unpadded) then 0 else now % NanosPerMinute)
  }

  /**
   * A start time that parses sorts before one that does not when `now` is
   * past it, even within the same minute, and after it when `now` is before
   * its minute.
   */
  lemma StartKeyOrder(a: ScheduleEvent, b: ScheduleEvent, now: NanoOfDay)
    requires ClockText(a.startTime, Unpadded) && !ClockText(b.startTime, Unpadded)
    ensures StartKey(now)(a) < StartKey(now)(b) <==> ParseTime(a.startTime, 0) * NanosPerMinute < now
    ensures StartKey(now)(b) < StartKey(now)(a) <==> now < ParseTime(a.startTime, 0) * NanosPerMinute
  {
    var m := now / NanosPerMinute;
    assert StartKey(now)(b) == now by {
      assert now == m * NanosPerMinute + now % NanosPerMinute;
    }
    assert ParseTime(a.startTime, 0) == ParseTime(a.startTime, m);
  }

  /** The days that have at least one event. */
  function DaysOf(s: seq<ScheduleEvent>): (r: set<DayOfWeek>)
    ensures forall d :: d in r <==> exists i :: 0 <= i < |s| && s[i].day == d
  {
    set i | 0 <= i < |s| :: s[i].day
  }

  /**
   * One day's list in `eventsByDay`: that day's events, sorted stably by
   * start time, so events with equal keys keep the order of `events`.
   */
  function DayGroup(events: seq<ScheduleEvent>, d: DayOfWeek, now: NanoOfDay): (g: seq<ScheduleEvent>)
    ensures SortedBy(g, StartKey(now))
    ensures multiset(g) == multiset(OnDay(events, d))
    ensures forall v :: KeyFilter(g, StartKey(now), v) == KeyFilter(OnDay(events, d), StartKey(now), v)
  {
    SortBy(OnDay(events, d), StartKey(now))
  }

  /**
   * `eventsByDay` over the current `events`: `groupBy { it.day }`, then a
   * stable `sortedBy` on the start time within each day.
   */
  function EventsByDay(events: seq<ScheduleEvent>, now: NanoOfDay): (m: map<DayOfWeek, seq<ScheduleEvent>>)
    ensures forall d :: d in m <==> exists i :: 0 <= i < |events| && events[i].day == d
    ensures forall d :: d in m ==> m[d] == DayGroup(events, d, now)
  {
    var m := map d | d in DaysOf(events) :: DayGroup(events, d, now);
    assert m.Keys == DaysOf(events);
    m
  }

  /** Every listed event of a day is an event of that day, and every event is listed under its day. */
  lemma EventsByDayMembers(events: seq<ScheduleEvent>, now: NanoOfDay, e: ScheduleEvent)
    ensures e in events <==> e.day in EventsByDay(events, now) && e in EventsByDay(events, now)[e.day]
  {
    var m := EventsByDay(events, now);
    OnDayMembers(events, e.day);
    if e.day in m {
      var g := DayGroup(events, e.day, now);
      assert m[e.day] == g;
      assert e in g <==> e in multiset(g);
      assert e in OnDay(events, e.day) <==> e in multiset(OnDay(events, e.day));
    }
  }


  /**
   * Monday's "bad" start time and a "10:00 AM" one, grouped at 10:00:30:
   * the failed parse reads as 10:00:30 and sorts after 10:00, whatever the
   * input order.
   */
  lemma FailedParseSortsAfter()
    ensures var a := ScheduleEvent("a", "A", "bad", "bad", MONDAY, None, None);
            var b := ScheduleEvent("b", "B", "10:00 AM", "11:00 AM", MONDAY, None, None);
            DayGroup([a, b], MONDAY, 600 * NanosPerMinute + 30_000_000_000) == [b, a]
  {
    var a := ScheduleEvent("a", "A", "bad", "bad", MONDAY, None, None);
    var b := ScheduleEvent("b", "B", "10:00 AM", "11:00 AM", MONDAY, None, None);
    var now: NanoOfDay := 600 * NanosPerMinute + 30_000_000_000;
    TenOClockKeys(a, b, now);
    OnDayOfOneDay([a, b], MONDAY);
    var g := DayGroup([a, b], MONDAY, now);
    assert multiset(g) == multiset([a, b]);
    TwoSorted(g, b, a, StartKey(now));
  }

  /** A list whose events are all on day `d` is its own day list. */
  lemma {:induction false} OnDayOfOneDay(s: seq<ScheduleEvent>, d: DayOfWeek)
    requires forall i :: 0 <= i < |s| ==> s[i].day == d
    ensures OnDay(s, d) == s
  {
    if s != [] {
      OnDayOfOneDay(s[1..], d);
      assert s == [s[0]] + s[1..];
    }
  }

  /** At 10:00:30 "10:00 AM" keys before a start time that fails to parse. */
  lemma TenOClockKeys(a: ScheduleEvent, b: ScheduleEvent, now: NanoOfDay)
    requires a.startTime == "bad" && b.startTime == "10:00 AM" && now == 600 * NanosPerMinute + 30_000_000_000
    ensures StartKey(now)(b) < StartKey(now)(a)
  {
    FormatExamples();
    FormatParse(At(10, 0));
    ParseMeaning("10:00 AM", Unpadded);
    assert ClockText(b.startTime, Unpadded) && !ClockText(a.startTime, Unpadded);
    assert ParseTime(b.startTime, 0) == 600;
    StartKeyOrder(b, a, now);
  }

  /** The only sorted arrangement of two elements with different keys. */
  lemma TwoSorted<T>(g: seq<T>, x: T, y: T, key: T -> int)
    requires multiset(g) == multiset([y, x]) && SortedBy(g, key) && key(x) < key(y)
    ensures g == [x, y]
  {
    assert |g| == |[y, x]|;
    assert g == [g[0], g[1]];
    assert multiset{g[0], g[1]} == multiset{x, y};
    assert g[0] in multiset{x, y} && g[1] in multiset{x, y};
  }

  // ---------------------------------------------------------------------
  // The edit dialog's Save button

  /**
   * `eventToEdit.copy(title, location, notes, startTime, endTime)`: the
   * dialog's fields, with empty text boxes saved as "" rather than null.
   */
  function SavedEvent(e: ScheduleEvent, title: string, location: string, notes: string, startTime: string, endTime: string)
    : (r: ScheduleEvent)
    ensures r.id == e.id && r.day == e.day
    ensures r.title == title && r.startTime == startTime && r.endTime == endTime
    ensures r.location == Some(location) && r.notes == Some(notes)
  {
    e.(title := title, location := Some(location), notes := Some(notes), startTime := startTime, endTime := endTime)
  }

  /**
   * The dialog opens on the event's own fields, a null location or notes
   * shown as "". Saving without an edit gives back the event, except that
   * a null location or notes comes back as "".
   */
  lemma SaveUnedited(e: ScheduleEvent)
    ensures var r := SavedEvent(e, e.title, e.location.GetOr(""), e.notes.GetOr(""), e.startTime, e.endTime);
            && r.location == Some(e.location.GetOr("")) && r.notes == Some(e.notes.GetOr(""))
            && r.(location := e.location, notes := e.notes) == e
            && (e.location.Some? && e.notes.Some? ==> r == e)
  {
  }

  /** Saving an edit through `updateEvent` rewrites only the edited event, keeping its id and day. */
  lemma SaveKeepsIdAndDay(s: seq<ScheduleEvent>, i: nat, title: string, location: string, notes: string,
                          startTime: string, endTime: string)
    requires UniqueIds(s) && i < |s|
    ensures var r := ReplaceId(s, SavedEvent(s[i], title, location, notes, startTime, endTime));
            && |r| == |s|
            && (forall j :: 0 <= j < |s| ==> r[j].id == s[j].id && r[j].day == s[j].day)
            && (forall j :: 0 <= j < |s| && j != i ==> r[j] == s[j])
            && r[i].title == title && r[i].startTime == startTime && r[i].endTime == endTime
            && r[i].location == Some(location) && r[i].notes == Some(notes)
  {
    ReplaceIdAt(s, i, SavedEvent(s[i], title, location, notes, startTime, endTime));
  }

  // ---------------------------------------------------------------------
  // The view model

  class ScheduleViewModel {
    var events: seq<ScheduleEvent>

    constructor()
      ensures events == []
    {
      events := [];
    }

    /** `addEvent`: the event goes at the end; everything before it stays. */
    method AddEvent(event: ScheduleEvent)
      modifies this
      ensures events == old(events) + [event]
      ensures |events| == |old(events)| + 1 && events[..|old(events)|] == old(events)
    {
      events := events + [event];
    }

    /** `deleteEvent`: every event with that id goes, the rest keep their order. */
    method DeleteEvent(eventId: string)
      modifies this
      ensures events == WithoutId(old(events), eventId)
      ensures (forall i :: 0 <= i < |old(events)| ==> old(events)[i].id != eventId) ==> events == old(events)
    {
      if forall i :: 0 <= i < |events| ==> events[i].id != eventId {
        WithoutIdAbsent(events, eventId);
      }
      events := WithoutId(events, eventId);
    }

    /** `updateEvent`: every event with the updated event's id becomes it. */
    method UpdateEvent(updatedEvent: ScheduleEvent)
      modifies this
      ensures events == ReplaceId(old(events), updatedEvent)
      ensures (forall i :: 0 <= i < |old(events)| ==> old(events)[i].id != updatedEvent.id) ==> events == old(events)
    {
      events := ReplaceId(events, updatedEvent);
      if forall i :: 0 <= i < |old(events)| ==> old(events)[i].id != updatedEvent.id {
        assert forall i :: 0 <= i < |events| ==> events[i] == old(events)[i];
      }
    }

    /**
     * `moveEvent`: takes the first event with `draggedId` out, inserts it
     * with its day set to `targetDay` at `targetIndex` (clamped) among that
     * day's remaining events, and sorts the whole list stably by day.
     */
    method MoveEvent(draggedId: string, targetDay: DayOfWeek, targetIndex: int)
      modifies this
      ensures FindId(old(events), draggedId).None? ==> events == old(events)
      ensures FindId(old(events), draggedId).Some? ==>
                MovedTo(old(events), events, FindId(old(events), draggedId).value, targetDay, targetIndex)
    {
      var found := FindId(events, draggedId);
      if found.None? {
        return;
      }
      var i := found.value;
      var draggedEvent := events[i];
      RemoveFirstAt(events, i);
      var currentList := RemoveFirst(events, draggedEvent);

      var targetDayEvents := OnDay(currentList, targetDay);
      var insertionIndex := CoerceIn(targetIndex, 0, |targetDayEvents|);
      var moved := draggedEvent.(day := targetDay);
      targetDayEvents := targetDayEvents[..insertionIndex] + [moved] + targetDayEvents[insertionIndex..];
      assert targetDayEvents == Placed(currentList, moved, insertionIndex);

      var otherEvents := NotOnDay(currentList, targetDay);
      assert otherEvents + targetDayEvents == Regrouped(currentList, moved, insertionIndex);
      MoveOutcome(events, i, targetDay, targetIndex);
      events := SortBy(otherEvents + targetDayEvents, DayKey);
    }
  }
}
