/**
 * The app's own `DayOfWeek` enum and `DayOfWeekSerializer`
 * (ScheduleScreen.kt): a day is written as its constant's name and read
 * back case-insensitively, with MONDAY for any name that is not a day.
 */
module Days {
  import opened Options
  import opened Strings

  datatype DayOfWeek = MONDAY | TUESDAY | WEDNESDAY | THURSDAY | FRIDAY | SATURDAY | SUNDAY

  /** Declaration order, MONDAY = 0 (`ordinal`). */
  function Ordinal(d: DayOfWeek): (i: nat)
    ensures i < 7
  {
    match d
    case MONDAY => 0
    case TUESDAY => 1
    case WEDNESDAY => 2
    case THURSDAY => 3
    case FRIDAY => 4
    case SATURDAY => 5
    case SUNDAY => 6
  }

  function FromOrdinal(i: nat): (d: DayOfWeek)
    requires i < 7
    ensures Ordinal(d) == i
  {
    [MONDAY, TUESDAY, WEDNESDAY, THURSDAY, FRIDAY, SATURDAY, SUNDAY][i]
  }

  lemma OrdinalInjective(d: DayOfWeek, e: DayOfWeek)
    ensures Ordinal(d) == Ordinal(e) <==> d == e
  {
  }

  /** The constant's identifier (`name`); `serialize` writes exactly this string. */
  function Name(d: DayOfWeek): (s: string)
    ensures AllUpperAscii(s)
  {
    match d
    case MONDAY => "MONDAY"
    case TUESDAY => "TUESDAY"
    case WEDNESDAY => "WEDNESDAY"
    case THURSDAY => "THURSDAY"
    case FRIDAY => "FRIDAY"
    case SATURDAY => "SATURDAY"
    case SUNDAY => "SUNDAY"
  }

  /** The enum's `valueOf`: the day with exactly that name; `None` where Kotlin throws IllegalArgumentException. */
  function ValueOf(name: string): (r: Option<DayOfWeek>)
    ensures forall d :: r == Some(d) <==> name == Name(d)
  {
    if name == "MONDAY" then Some(MONDAY)
    else if name == "TUESDAY" then Some(TUESDAY)
    else if name == "WEDNESDAY" then Some(WEDNESDAY)
    else if name == "THURSDAY" then Some(THURSDAY)
    else if name == "FRIDAY" then Some(FRIDAY)
    else if name == "SATURDAY" then Some(SATURDAY)
    else if name == "SUNDAY" then Some(SUNDAY)
    else None
  }

  /** `DayOfWeekSerializer.deserialize`: `valueOf(s.uppercase())`, MONDAY when that throws. */
  function Deserialize(s: string): (d: DayOfWeek)
    ensures UpperCase(s) == Name(d) || (d == MONDAY && forall e :: UpperCase(s) != Name(e))
  {
    ValueOf(UpperCase(s)).GetOr(MONDAY)
  }

  /** A string whose upper case is a day's name reads as that day ("tuesday" is TUESDAY). */
  lemma DeserializeNamed(s: string, d: DayOfWeek)
    requires UpperCase(s) == Name(d)
    ensures Deserialize(s) == d
  {
  }

  /** Any other string reads as MONDAY instead of failing the decode. */
  lemma DeserializeFallback(s: string)
    requires forall d :: UpperCase(s) != Name(d)
    ensures Deserialize(s) == MONDAY
  {
  }

  /** What `serialize` writes, `deserialize` reads back; so does its all-lower-case spelling. */
  lemma DeserializeSerialize(d: DayOfWeek)
    ensures Deserialize(Name(d)) == d
    ensures Deserialize(LowerAscii(Name(d))) == d
  {
    UpperCaseOfUpper(Name(d));
  }

  /** "Funday" is not a day. */
  lemma DeserializeUnknownExample()
    ensures Deserialize("Funday") == MONDAY
    ensures Deserialize("tuesday") == TUESDAY
  {
    assert UpperCase("Funday") == "FUNDAY";
    assert UpperCase("tuesday") == "TUESDAY";
  }
}
