/**
 * The events the statistics engine reads.  A timestamp is a count of seconds
 * on the event's own wall clock (the naive local date and time that Python's
 * `datetime.date()` and `datetime.hour` read), counted from 1970-01-01 00:00.
 */
module Events {

  const SecondsPerHour: int := 3600
  const SecondsPerDay: int := 86400

  /** A calendar date, as a count of days since 1970-01-01 (the day of timestamp 0). */
  type Date = int

  /** One recorded event of a given type: when it happened and where. */
  datatype Event = Event(timestamp: int, location: string)

  /** The calendar date of a timestamp (`timestamp.date()`); division rounds down, also before 1970. */
  function DateOf(timestamp: int): (d: Date)
    ensures d * SecondsPerDay <= timestamp < (d + 1) * SecondsPerDay
  {
    timestamp / SecondsPerDay
  }

  /** The hour field of a timestamp (`timestamp.hour`). */
  function HourOf(timestamp: int): (h: int)
    ensures 0 <= h < 24
    ensures DateOf(timestamp) * SecondsPerDay + h * SecondsPerHour <= timestamp
    ensures timestamp < DateOf(timestamp) * SecondsPerDay + (h + 1) * SecondsPerHour
  {
    (timestamp % SecondsPerDay) / SecondsPerHour
  }

  /** `timedelta.total_seconds() / 3600.0`: a span of seconds in hours. */
  function Hours(seconds: int): real
  {
    seconds as real / 3600.0
  }

  /** Events in the order the store returns them: ascending by timestamp. */
  predicate Ascending(events: seq<Event>)
  {
    forall i, j :: 0 <= i < j < |events| ==> events[i].timestamp <= events[j].timestamp
  }

  /** The location of each event, in order. */
  function Locations(events: seq<Event>): (ls: seq<string>)
    ensures |ls| == |events|
    ensures forall i :: 0 <= i < |events| ==> ls[i] == events[i].location
  {
    seq(|events|, i requires 0 <= i < |events| => events[i].location)
  }
}
