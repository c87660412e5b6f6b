/**
 * The values the Temporal builtins pass around: wall-clock times, date-times,
 * calendars, time zones, ZonedDateTimes, and the conversions between a wall-clock
 * date-time and nanoseconds since the epoch.
 */
module TemporalTypes {
  import opened IsoDate
  import opened Wrappers

  const NS_PER_DAY: int := 86_400_000_000_000
  const NS_PER_HOUR: int := 3_600_000_000_000

  /** The six fields of a Temporal.PlainTime. */
  datatype Time = Time(hour: int, minute: int, second: int, millisecond: int, microsecond: int, nanosecond: int)

  /** IsValidTime: every field within its range. */
  predicate IsValidTime(t: Time)
  {
    && 0 <= t.hour < 24 && 0 <= t.minute < 60 && 0 <= t.second < 60
    && 0 <= t.millisecond < 1000 && 0 <= t.microsecond < 1000 && 0 <= t.nanosecond < 1000
  }

  type ValidTime = t: Time | IsValidTime(t) witness Time(0, 0, 0, 0, 0, 0)

  const Midnight: ValidTime := Time(0, 0, 0, 0, 0, 0)

  /** Nanoseconds since midnight. */
  function TimeNs(t: ValidTime): (n: int)
    ensures 0 <= n < NS_PER_DAY
  {
    var us := ((t.hour * 60 + t.minute) * 60 + t.second) * 1000 + t.millisecond;
    (us * 1000 + t.microsecond) * 1000 + t.nanosecond
  }

  /** The time of day `n` nanoseconds after midnight. */
  function TimeOfNs(n: int): (t: ValidTime)
    requires 0 <= n < NS_PER_DAY
    ensures TimeNs(t) == n
  {
    var us := n / 1000;
    var ms := us / 1000;
    var s := ms / 1000;
    var min := s / 60;
    Time(min / 60, min % 60, s % 60, ms % 1000, us % 1000, n % 1000)
  }

  /** TimeOfNs inverts TimeNs. */
  lemma TimeOfNsOfTime(t: ValidTime)
    ensures TimeOfNs(TimeNs(t)) == t
  {
    var mins := t.hour * 60 + t.minute;
    var secs := mins * 60 + t.second;
    var ms := secs * 1000 + t.millisecond;
    var us := ms * 1000 + t.microsecond;
    var n := us * 1000 + t.nanosecond;
    assert n == TimeNs(t);
    assert n / 1000 == us && n % 1000 == t.nanosecond;
    assert us / 1000 == ms && us % 1000 == t.microsecond;
    assert ms / 1000 == secs && ms % 1000 == t.millisecond;
    assert secs / 60 == mins && secs % 60 == t.second;
    assert mins / 60 == t.hour && mins % 60 == t.minute;
  }

  /** A time is determined by its nanoseconds since midnight. */
  lemma TimeNsInjective(a: ValidTime, b: ValidTime)
    requires TimeNs(a) == TimeNs(b)
    ensures a == b
  {
    TimeOfNsOfTime(a);
    TimeOfNsOfTime(b);
  }

  /** A calendar, identified by its id ("iso8601" for the built-in one). */
  datatype Calendar = Calendar(id: string)

  const ISO8601: Calendar := Calendar("iso8601")

  /** A time zone, identified by its id; a fixed-offset zone carries its offset. */
  datatype TimeZone = FixedOffset(offsetNs: int) | NamedZone(name: string)

  /** The ISO fields of a Temporal.PlainDateTime. */
  datatype DateTime = DateTime(date: ValidDate, time: ValidTime)

  /** A Temporal.PlainDate: ISO fields and the calendar that reads them. */
  datatype PlainDate = PlainDate(date: ValidDate, calendar: Calendar)

  /** A Temporal.PlainDateTime: ISO date and time fields and the calendar that reads them. */
  datatype PlainDateTime = PlainDateTime(dateTime: DateTime, calendar: Calendar)

  /** The day, month, monthCode and year properties that prepareTemporalFields reads from a bag. */
  datatype DateFields = DateFields(day: Option<int>, month: Option<int>, monthCode: Option<string>, year: Option<int>)

  /** A Temporal.ZonedDateTime: an exact time plus the zone and calendar that read it. */
  datatype ZonedDateTime = ZonedDateTime(epochNs: int, timeZone: TimeZone, calendar: Calendar)

  /** The date `days` days after 1970-01-01. */
  function DateOfEpochDays(days: int): (d: ValidDate)
    ensures EpochDays(d) == days
  {
    BalanceDate(1970, 1, days + 1)
  }

  /** Years start in increasing order: a later year starts after an earlier one ends. */
  lemma {:induction false} DaysBeforeYearGrows(a: int, b: int)
    requires a < b
    ensures DaysBeforeYear(b) >= DaysBeforeYear(a) + DaysInYear(a)
    decreases b - a
  {
    DaysBeforeNextYear(a);
    if a + 1 < b {
      DaysBeforeYearGrows(a + 1, b);
    }
  }

  /** A valid date lies within its own year. */
  lemma EpochDaysWithinYear(d: ValidDate)
    ensures DaysBeforeYear(d.year) <= EpochDays(d) < DaysBeforeYear(d.year) + DaysInYear(d.year)
  {
    DaysBeforeMonthSteps(d.year, d.month);
  }

  /** Distinct valid dates have distinct epoch days. */
  lemma EpochDaysInjective(a: ValidDate, b: ValidDate)
    requires EpochDays(a) == EpochDays(b)
    ensures a == b
  {
    EpochDaysWithinYear(a);
    EpochDaysWithinYear(b);
    if a.year < b.year {
      DaysBeforeYearGrows(a.year, b.year);
    } else if b.year < a.year {
      DaysBeforeYearGrows(b.year, a.year);
    }
    assert a.year == b.year;
    var y := a.year;
    if a.month < b.month {
      MonthsStartAfter(y, a.month, b.month);
    } else if b.month < a.month {
      MonthsStartAfter(y, b.month, a.month);
    }
  }

  /** A later month starts after an earlier one ends. */
  lemma {:induction false} MonthsStartAfter(y: int, m: int, n: int)
    requires 1 <= m < n <= 12
    ensures DaysBeforeMonth(y, n) >= DaysBeforeMonth(y, m) + DaysInMonth(y, m)
    decreases n - m
  {
    DaysBeforeMonthSteps(y, n);
    if m + 1 < n {
      MonthsStartAfter(y, m, n - 1);
    }
  }

  /** DateOfEpochDays inverts EpochDays on valid dates. */
  lemma DateOfEpochDaysOfDate(d: ValidDate)
    ensures DateOfEpochDays(EpochDays(d)) == d
  {
    EpochDaysInjective(DateOfEpochDays(EpochDays(d)), d);
  }

  /** Nanoseconds since the epoch of a wall-clock date-time read as UTC (GetEpochFromISOParts). */
  function EpochNsOf(dt: DateTime): int
  {
    EpochDays(dt.date) * NS_PER_DAY + TimeNs(dt.time)
  }

  /** The UTC wall-clock date-time of an exact time. */
  function DateTimeOfEpochNs(ns: int): (dt: DateTime)
    ensures EpochNsOf(dt) == ns
    ensures EpochDays(dt.date) == ns / NS_PER_DAY && TimeNs(dt.time) == ns % NS_PER_DAY
  {
    DateTime(DateOfEpochDays(ns / NS_PER_DAY), TimeOfNs(ns % NS_PER_DAY))
  }

  /** DateTimeOfEpochNs inverts EpochNsOf: a wall-clock date-time is determined by its epoch nanoseconds. */
  lemma DateTimeOfEpochNsOf(dt: DateTime)
    ensures DateTimeOfEpochNs(EpochNsOf(dt)) == dt
  {
    var n := EpochNsOf(dt);
    assert n / NS_PER_DAY == EpochDays(dt.date) && n % NS_PER_DAY == TimeNs(dt.time);
    DateOfEpochDaysOfDate(dt.date);
    TimeOfNsOfTime(dt.time);
  }

  /**
   * GetPlainDateTimeFor and GetInstantFor of a time zone. The time zone database
   * is not part of this model: named zones are read through these functions.
   */
  datatype TimeZoneMethods = TimeZoneMethods(
    plainDateTimeFor: (TimeZone, int) -> DateTime,
    instantFor: (TimeZone, DateTime) -> int)

  /** A fixed-offset zone: local time is UTC plus the offset. */
  function FixedOffsetDateTimeFor(offsetNs: int, epochNs: int): DateTime
  {
    DateTimeOfEpochNs(epochNs + offsetNs)
  }

  function FixedOffsetInstantFor(offsetNs: int, dt: DateTime): int
  {
    EpochNsOf(dt) - offsetNs
  }

  /**
   * In a fixed-offset zone the two conversions are inverse: reading an exact time
   * and converting back gives the same exact time, and the other way round.
   */
  lemma FixedOffsetRoundTrip(offsetNs: int, epochNs: int, dt: DateTime)
    ensures FixedOffsetInstantFor(offsetNs, FixedOffsetDateTimeFor(offsetNs, epochNs)) == epochNs
    ensures FixedOffsetDateTimeFor(offsetNs, FixedOffsetInstantFor(offsetNs, dt)) == dt
  {
    assert EpochNsOf(DateTimeOfEpochNs(epochNs + offsetNs)) == epochNs + offsetNs;
    var n := EpochNsOf(dt);
    assert FixedOffsetInstantFor(offsetNs, dt) + offsetNs == n;
    DateTimeOfEpochNsOf(dt);
  }

  /** In a fixed-offset zone, local midnight of one day and of the next lie exactly one day apart. */
  lemma FixedOffsetDayLength(offsetNs: int, today: ValidDate, tomorrow: ValidDate)
    requires EpochDays(tomorrow) == EpochDays(today) + 1
    ensures FixedOffsetInstantFor(offsetNs, DateTime(tomorrow, Midnight)) - FixedOffsetInstantFor(offsetNs, DateTime(today, Midnight)) == NS_PER_DAY
  {
  }

  /** Time zone methods that read fixed-offset zones as fixed offsets (named zones are unconstrained). */
  ghost predicate HonoursFixedOffsets(m: TimeZoneMethods)
  {
    && (forall offsetNs: int, epochNs: int :: m.plainDateTimeFor(FixedOffset(offsetNs), epochNs) == FixedOffsetDateTimeFor(offsetNs, epochNs))
    && (forall offsetNs: int, dt: DateTime :: m.instantFor(FixedOffset(offsetNs), dt) == FixedOffsetInstantFor(offsetNs, dt))
  }

  /** Through time zone methods that honour fixed offsets, a fixed-offset zone reads back the date-time it converted. */
  lemma FixedOffsetReadsBack(m: TimeZoneMethods, tz: TimeZone, dt: DateTime)
    requires HonoursFixedOffsets(m) && tz.FixedOffset?
    ensures m.plainDateTimeFor(tz, m.instantFor(tz, dt)) == dt
  {
    FixedOffsetRoundTrip(tz.offsetNs, m.instantFor(tz, dt), dt);
  }
}
