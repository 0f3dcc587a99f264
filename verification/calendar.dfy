/** Calendar arithmetic. A day is a whole number of days since 1970-01-01 and
    an instant is a whole number of milliseconds since the start of that day;
    both are in a single time zone (the browser's), which the model does not
    distinguish from UTC. */
module Calendar {
  import opened Wrappers

  /** A calendar day: days since 1970-01-01. */
  type Day = int

  /** A point in time: milliseconds since 1970-01-01T00:00:00. */
  type Instant = int

  const MsPerDay: int := 86400000

  /** `startOfDay(t)`, seen as the day containing `t`. */
  function DayOf(t: Instant): (d: Day)
    ensures d * MsPerDay <= t < (d + 1) * MsPerDay
  {
    t / MsPerDay
  }

  /** The first instant of day `d`. */
  function StartOf(d: Day): Instant {
    d * MsPerDay
  }

  /** `getFullYear()` of a day: the proleptic Gregorian year containing it,
      by the civil-from-days conversion. */
  function YearOf(d: Day): int {
    var z := d + 719468;
    var era := z / 146097;
    var doe := z - era * 146097;
    var yoe := (doe - doe / 1460 + doe / 36524 - doe / 146096) / 365;
    var doy := doe - (365 * yoe + yoe / 4 - yoe / 100);
    var mp := (5 * doy + 2) / 153;
    var y := yoe + era * 400;
    if mp >= 10 then y + 1 else y
  }

  /** A date-range picker value: either bound may be missing. */
  datatype DateRange = DateRange(from: Option<Day>, to: Option<Day>)

  /** The window test shared by the ledger and the milk-record list: both
      bounds inclusive, a missing bound open. */
  predicate InRange(range: DateRange, d: Day) {
    match (range.from, range.to)
    case (Some(f), Some(t)) => f <= d && d <= t
    case (Some(f), None) => f <= d
    case (None, Some(t)) => d <= t
    case (None, None) => true
  }

  /** The window test is the conjunction of its two bounds. */
  lemma InRangeBounds(range: DateRange, d: Day)
    ensures InRange(range, d)
        <==> (range.from.None? || range.from.value <= d) && (range.to.None? || d <= range.to.value)
  {
  }
}
