/**
 * Temporal.ZonedDateTime.prototype: the getters, with, withPlainTime,
 * withPlainDate, withTimeZone, withCalendar, add and subtract, until and since,
 * round, equals, startOfDay and the conversions to Instant, PlainDate, PlainTime
 * and PlainDateTime. A ZonedDateTime is an exact time read through a time zone
 * and a calendar; the wall-clock fields come from the zone's
 * GetPlainDateTimeFor, the exact time of a wall-clock reading from its
 * GetInstantFor.
 */
module ZonedDateTimeBuiltins {
  import opened Wrappers
  import opened JavaArith
  import opened IsoDate
  import opened Duration
  import opened TemporalTypes
  import opened TemporalOptions
  import opened InstantBuiltins

  /** getterEpoch: the exact time divided by the getter's unit, truncating toward zero. */
  function GetterEpoch(z: ZonedDateTime, p: EpochProperty): (r: int)
    ensures r == InstantGetter(Instant(z.epochNs), p)
  {
    TruncDiv(z.epochNs, EpochFactor(p))
  }

  /** The wall-clock reading of a ZonedDateTime in its own time zone. */
  function LocalDateTime(z: ZonedDateTime, zones: TimeZoneMethods): DateTime
  {
    zones.plainDateTimeFor(z.timeZone, z.epochNs)
  }

  /** The day after a date, as addISODate with one day and overflow "reject" computes it. */
  function NextDay(date: ValidDate): (r: ValidDate)
    ensures EpochDays(r) == EpochDays(date) + 1
  {
    AddISODate(date, 0, 0, 0, 1, Reject).value
  }

  /** The exact times of local midnight today and tomorrow, subtracted: how long this local day lasts. */
  function DayLengthNs(z: ZonedDateTime, zones: TimeZoneMethods): int
  {
    var today := LocalDateTime(z, zones).date;
    zones.instantFor(z.timeZone, DateTime(NextDay(today), Midnight)) - zones.instantFor(z.timeZone, DateTime(today, Midnight))
  }

  /** The divisor getterHoursInDay applies to the day length: 36_000_000_000_000, ten hours of nanoseconds. */
  const HOURS_IN_DAY_DIVISOR_AS_WRITTEN: int := 36_000_000_000_000

  /** getterHoursInDay as written: the day length divided by ten hours' worth of nanoseconds. */
  function GetterHoursInDayAsWritten(z: ZonedDateTime, zones: TimeZoneMethods): (r: int)
    ensures r == TruncDiv(DayLengthNs(z, zones), 10 * NS_PER_HOUR)
  {
    TruncDiv(DayLengthNs(z, zones), HOURS_IN_DAY_DIVISOR_AS_WRITTEN)
  }

  /** hoursInDay: the length of the local day in hours, truncated toward zero. */
  function GetterHoursInDay(z: ZonedDateTime, zones: TimeZoneMethods): (r: int)
    ensures 0 <= DayLengthNs(z, zones) ==> 0 <= DayLengthNs(z, zones) - r * NS_PER_HOUR < NS_PER_HOUR
  {
    TruncDiv(DayLengthNs(z, zones), NS_PER_HOUR)
  }

  /** In a fixed-offset zone every day lasts exactly 24 hours. */
  lemma FixedOffsetDayLasts24Hours(z: ZonedDateTime, zones: TimeZoneMethods)
    requires HonoursFixedOffsets(zones) && z.timeZone.FixedOffset?
    ensures DayLengthNs(z, zones) == NS_PER_DAY
    ensures GetterHoursInDay(z, zones) == 24
  {
    var today := LocalDateTime(z, zones).date;
    FixedOffsetDayLength(z.timeZone.offsetNs, today, NextDay(today));
  }

  /** As written, a 24-hour day reports 2 hours: 86_400_000_000_000 / 36_000_000_000_000 truncates to 2. */
  lemma HoursInDayAsWrittenReportsTwo(z: ZonedDateTime, zones: TimeZoneMethods)
    requires HonoursFixedOffsets(zones) && z.timeZone.FixedOffset?
    ensures GetterHoursInDayAsWritten(z, zones) == 2
    ensures GetterHoursInDayAsWritten(z, zones) != GetterHoursInDay(z, zones)
  {
    FixedOffsetDayLasts24Hours(z, zones);
  }

  /** The calendar getters of a ZonedDateTime. */
  datatype CalendarProperty =
    | YearProperty | MonthProperty | MonthCodeProperty | DayProperty
    | HourProperty | MinuteProperty | SecondProperty | MillisecondProperty | MicrosecondProperty | NanosecondProperty
    | DayOfWeekProperty | DayOfYearProperty | WeekOfYearProperty | DaysInWeekProperty | DaysInMonthProperty
    | DaysInYearProperty | MonthsInYearProperty | InLeapYearProperty

  datatype PropertyValue = Number(n: int) | Text(s: string) | Boolean(b: bool)

  /** The month code of the ISO calendar: "M" and the month as two digits. */
  function MonthCode(month: int): (s: string)
    requires 1 <= month <= 12
    ensures |s| == 3 && s[0] == 'M'
    ensures (s[1] as int - '0' as int) * 10 + (s[2] as int - '0' as int) == month
  {
    ['M', (('0' as int) + month / 10) as char, (('0' as int) + month % 10) as char]
  }

  /** A calendar getter evaluated on a wall-clock reading, with the ISO 8601 calendar. */
  function CalendarDetail(dt: DateTime, p: CalendarProperty): (r: PropertyValue)
    ensures p == DaysInWeekProperty ==> r == Number(7)
    ensures p == MonthsInYearProperty ==> r == Number(12)
    ensures p == DayOfWeekProperty ==> r.Number? && 1 <= r.n <= 7
    ensures p == WeekOfYearProperty ==> r.Number? && 1 <= r.n <= 53
  {
    var d := dt.date;
    match p
    case YearProperty => Number(d.year)
    case MonthProperty => Number(d.month)
    case MonthCodeProperty => Text(MonthCode(d.month))
    case DayProperty => Number(d.day)
    case HourProperty => Number(dt.time.hour)
    case MinuteProperty => Number(dt.time.minute)
    case SecondProperty => Number(dt.time.second)
    case MillisecondProperty => Number(dt.time.millisecond)
    case MicrosecondProperty => Number(dt.time.microsecond)
    case NanosecondProperty => Number(dt.time.nanosecond)
    case DayOfWeekProperty => Number(DayOfWeek(d))
    case DayOfYearProperty => Number(DayOfYear(d))
    case WeekOfYearProperty => Number(WeekOfYear(d))
    case DaysInWeekProperty => Number(7)
    case DaysInMonthProperty => Number(DaysInMonth(d.year, d.month))
    case DaysInYearProperty => Number(DaysInYear(d.year))
    case MonthsInYearProperty => Number(12)
    case InLeapYearProperty => Boolean(IsLeapYear(d.year))
  }

  /** getterCalendarDetails as written: daysInWeek answers with the week of the year. */
  function CalendarDetailAsWritten(dt: DateTime, p: CalendarProperty): (r: PropertyValue)
    ensures p != DaysInWeekProperty ==> r == CalendarDetail(dt, p)
    ensures p == DaysInWeekProperty ==> r == CalendarDetail(dt, WeekOfYearProperty)
  {
    if p == DaysInWeekProperty then Number(WeekOfYear(dt.date)) else CalendarDetail(dt, p)
  }

  /**
   * getterCalendarDetails, with daysInWeek answering the days of a week: the
   * calendar getters read the wall-clock fields through the time zone.
   */
  function GetterCalendarDetails(z: ZonedDateTime, p: CalendarProperty, zones: TimeZoneMethods): (r: PropertyValue)
    ensures p == YearProperty ==> r == Number(LocalDateTime(z, zones).date.year)
    ensures p == MonthProperty ==> r == Number(LocalDateTime(z, zones).date.month)
    ensures p == DayProperty ==> r == Number(LocalDateTime(z, zones).date.day)
    ensures p == HourProperty ==> r == Number(LocalDateTime(z, zones).time.hour)
    ensures p == MinuteProperty ==> r == Number(LocalDateTime(z, zones).time.minute)
    ensures p == SecondProperty ==> r == Number(LocalDateTime(z, zones).time.second)
    ensures p == MillisecondProperty ==> r == Number(LocalDateTime(z, zones).time.millisecond)
    ensures p == MicrosecondProperty ==> r == Number(LocalDateTime(z, zones).time.microsecond)
    ensures p == NanosecondProperty ==> r == Number(LocalDateTime(z, zones).time.nanosecond)
    ensures p == MonthCodeProperty ==> r == Text(MonthCode(LocalDateTime(z, zones).date.month))
    ensures p == DayOfWeekProperty ==> r == Number(DayOfWeek(LocalDateTime(z, zones).date)) && 1 <= r.n <= 7
    ensures p == DayOfYearProperty ==> r == Number(DayOfYear(LocalDateTime(z, zones).date))
    ensures p == WeekOfYearProperty ==> r == Number(WeekOfYear(LocalDateTime(z, zones).date)) && 1 <= r.n <= 53
    ensures p == DaysInWeekProperty ==> r == Number(7)
    ensures p == DaysInMonthProperty ==> r == Number(DaysInMonth(LocalDateTime(z, zones).date.year, LocalDateTime(z, zones).date.month))
    ensures p == DaysInYearProperty ==> r == Number(DaysInYear(LocalDateTime(z, zones).date.year))
    ensures p == MonthsInYearProperty ==> r == Number(12)
    ensures p == InLeapYearProperty ==> r == Boolean(IsLeapYear(LocalDateTime(z, zones).date.year))
  {
    CalendarDetail(LocalDateTime(z, zones), p)
  }

  /** getterCalendarDetails as written: daysInWeek reads the week of the year of the local date. */
  function GetterCalendarDetailsAsWritten(z: ZonedDateTime, p: CalendarProperty, zones: TimeZoneMethods): (r: PropertyValue)
    ensures p != DaysInWeekProperty ==> r == GetterCalendarDetails(z, p, zones)
    ensures p == DaysInWeekProperty ==> r == GetterCalendarDetails(z, WeekOfYearProperty, zones)
  {
    CalendarDetailAsWritten(LocalDateTime(z, zones), p)
  }

  /** At the epoch, read in UTC, daysInWeek as written reports 1 where a week has 7 days. */
  lemma DaysInWeekAsWrittenAtEpoch()
    ensures CalendarDetailAsWritten(DateTime(Date(1970, 1, 1), Midnight), DaysInWeekProperty) == Number(1)
    ensures CalendarDetail(DateTime(Date(1970, 1, 1), Midnight), DaysInWeekProperty) == Number(7)
  {
    var d: ValidDate := Date(1970, 1, 1);
    assert EpochDays(d) == 0;
    assert DayOfWeek(d) == 4;
    assert DayOfYear(d) == 1;
  }

  /**
   * In the UTC zone the wall-clock reading of a date-time's epoch nanoseconds is
   * that date-time, whatever the calendar.
   */
  lemma UtcReadsEpochNanoseconds(dt: DateTime, calendar: Calendar, zones: TimeZoneMethods)
    requires HonoursFixedOffsets(zones)
    ensures LocalDateTime(ZonedDateTime(EpochNsOf(dt), FixedOffset(0), calendar), zones) == dt
  {
    DateTimeOfEpochNsOf(dt);
    assert FixedOffsetDateTimeFor(0, EpochNsOf(dt)) == dt;
  }

  /**
   * The fields with reads from its argument (preparePartialTemporalFields over
   * the calendar's date and time fields and `offset`): each present or not.
   */
  datatype ZonedPartial = ZonedPartial(
    date: DateFields, hour: Option<int>, minute: Option<int>, second: Option<int>,
    millisecond: Option<int>, microsecond: Option<int>, nanosecond: Option<int>, offset: Option<string>)

  /**
   * The argument of with: a non-object, or an object described by whether it is
   * itself a Temporal value with a calendar, whether it has `calendar` or
   * `timeZone` properties, and its partial fields, or the error reading them raised.
   */
  datatype ZonedLike = ZonedLikeNotObject | ZonedLikeObject(
    isCalendarType: bool, hasCalendar: bool, hasTimeZone: bool, partial: Result<ZonedPartial>)

  /**
   * with: the same TypeErrors as PlainTime with, then the options object, its
   * disambiguation (default compatible) and offset (default prefer) options;
   * the receiver's fields merged with the partial ones and interpreted by the
   * calendar give a wall-clock reading and an offset, which
   * interpretISODateTimeOffset turns into the exact time in the receiver's zone.
   * The time zone and calendar are kept.
   */
  function With(z: ZonedDateTime, like: ZonedLike, options: OptionsArg, h: ZonedHelpers): (r: Result<ZonedDateTime>)
    ensures like.ZonedLikeNotObject? ==> r == Err(TypeError)
    ensures like.ZonedLikeObject? && (like.isCalendarType || like.hasCalendar || like.hasTimeZone) ==> r == Err(TypeError)
    ensures like.ZonedLikeObject? && !(like.isCalendarType || like.hasCalendar || like.hasTimeZone) && like.partial.Err? ==>
              r == Err(like.partial.error)
    ensures like.ZonedLikeObject? && !(like.isCalendarType || like.hasCalendar || like.hasTimeZone) && like.partial.Ok? ==>
              && (options.OptionsOther? ==> r == Err(TypeError))
              && (options.OptionsObject? && options.options.disambiguation.DisambiguationUnrecognized? ==> r == Err(RangeError))
              && ((options.OptionsObject? && !options.options.disambiguation.DisambiguationUnrecognized?
                   && options.options.offset.OffsetUnrecognized?) ==> r == Err(RangeError))
    ensures r.Ok? ==> r.value.timeZone == z.timeZone && r.value.calendar == z.calendar
    ensures r.Ok? ==>
              && like.ZonedLikeObject? && like.partial.Ok?
              && GetOptionsObject(options).Ok?
              && ToDisambiguation(GetOptionsObject(options).value.disambiguation).Ok?
              && ToOffsetOption(GetOptionsObject(options).value.offset, Prefer).Ok?
              && h.mergeAndInterpretFields(z, like.partial.value, GetOptionsObject(options).value).Ok?
              && (var fields := h.mergeAndInterpretFields(z, like.partial.value, GetOptionsObject(options).value).value;
                  h.interpretISODateTimeOffset(fields.0, fields.1, z.timeZone,
                    ToDisambiguation(GetOptionsObject(options).value.disambiguation).value,
                    ToOffsetOption(GetOptionsObject(options).value.offset, Prefer).value) == Ok(r.value.epochNs))
  {
    match like
    case ZonedLikeNotObject => Err(TypeError)
    case ZonedLikeObject(isCalendarType, hasCalendar, hasTimeZone, partial) =>
      if isCalendarType || hasCalendar || hasTimeZone then Err(TypeError)
      else
        match partial
        case Err(e) => Err(e)
        case Ok(p) =>
          match GetOptionsObject(options)
          case Err(e) => Err(e)
          case Ok(opts) =>
            match ToDisambiguation(opts.disambiguation)
            case Err(e) => Err(e)
            case Ok(disambiguation) =>
              match ToOffsetOption(opts.offset, Prefer)
              case Err(e) => Err(e)
              case Ok(offset) =>
                match h.mergeAndInterpretFields(z, p, opts)
                case Err(e) => Err(e)
                case Ok(fields) =>
                  match h.interpretISODateTimeOffset(fields.0, fields.1, z.timeZone, disambiguation, offset)
                  case Err(e) => Err(e)
                  case Ok(ns) => Ok(ZonedDateTime(ns, z.timeZone, z.calendar))
  }

  /**
   * An interpretation that, in a fixed-offset zone and given that zone's own
   * offset, takes the exact time the zone gives the wall-clock reading, whatever
   * the disambiguation and offset options.
   */
  ghost predicate InterpretsMatchingFixedOffsets(h: ZonedHelpers, zones: TimeZoneMethods)
  {
    forall dt: DateTime, offsetNs: int, d: Disambiguation, o: OffsetOption ::
      h.interpretISODateTimeOffset(dt, offsetNs, FixedOffset(offsetNs), d, o) == Ok(zones.instantFor(FixedOffset(offsetNs), dt))
  }

  /**
   * In a fixed-offset zone, when the merged fields carry the zone's own offset,
   * with succeeds and its result reads back as the merged wall-clock fields.
   */
  lemma WithReadsBackMergedFields(z: ZonedDateTime, p: ZonedPartial, options: OptionsArg, h: ZonedHelpers, zones: TimeZoneMethods, dt: DateTime)
    requires HonoursFixedOffsets(zones) && z.timeZone.FixedOffset?
    requires InterpretsMatchingFixedOffsets(h, zones)
    requires GetOptionsObject(options).Ok?
    requires !GetOptionsObject(options).value.disambiguation.DisambiguationUnrecognized?
    requires !GetOptionsObject(options).value.offset.OffsetUnrecognized?
    requires h.mergeAndInterpretFields(z, p, GetOptionsObject(options).value) == Ok((dt, z.timeZone.offsetNs))
    ensures var r := With(z, ZonedLikeObject(false, false, false, Ok(p)), options, h);
            r.Ok? && LocalDateTime(r.value, zones) == dt
  {
    var r := With(z, ZonedLikeObject(false, false, false, Ok(p)), options, h);
    assert r.Ok? && r.value.epochNs == zones.instantFor(z.timeZone, dt);
    FixedOffsetRoundTrip(z.timeZone.offsetNs, r.value.epochNs, dt);
  }

  /** withPlainTime: today's date at the given time (midnight when undefined), in the same zone and calendar. */
  function WithPlainTime(z: ZonedDateTime, plainTimeLike: Option<Result<ValidTime>>, zones: TimeZoneMethods): (r: Result<ZonedDateTime>)
    ensures plainTimeLike.None? ==> r.Ok?
    ensures r.Ok? ==> r.value.timeZone == z.timeZone && r.value.calendar == z.calendar
    ensures r.Ok? && plainTimeLike.None? ==>
              r.value.epochNs == zones.instantFor(z.timeZone, DateTime(LocalDateTime(z, zones).date, Midnight))
    ensures r.Ok? && plainTimeLike.Some? ==>
              (plainTimeLike.value.Ok? &&
               r.value.epochNs == zones.instantFor(z.timeZone, DateTime(LocalDateTime(z, zones).date, plainTimeLike.value.value)))
    ensures plainTimeLike.Some? && plainTimeLike.value.Err? ==> r == Err(plainTimeLike.value.error)
  {
    var time := if plainTimeLike.None? then Ok(Midnight) else plainTimeLike.value;
    match time
    case Err(e) => Err(e)
    case Ok(t) =>
      var dt := LocalDateTime(z, zones);
      Ok(ZonedDateTime(zones.instantFor(z.timeZone, DateTime(dt.date, t)), z.timeZone, z.calendar))
  }

  /** startOfDay: local midnight of the same date, in the same zone and calendar. */
  function StartOfDay(z: ZonedDateTime, zones: TimeZoneMethods): (r: ZonedDateTime)
    ensures r.timeZone == z.timeZone && r.calendar == z.calendar
  {
    var dt := LocalDateTime(z, zones);
    ZonedDateTime(zones.instantFor(z.timeZone, DateTime(dt.date, Midnight)), z.timeZone, z.calendar)
  }

  /** withPlainTime with no argument is startOfDay. */
  lemma WithNoPlainTimeIsStartOfDay(z: ZonedDateTime, zones: TimeZoneMethods)
    ensures WithPlainTime(z, None, zones) == Ok(StartOfDay(z, zones))
  {
  }

  /** In a fixed-offset zone, withPlainTime keeps the local date and sets the local time. */
  lemma WithPlainTimeReadsBack(z: ZonedDateTime, t: ValidTime, zones: TimeZoneMethods)
    requires HonoursFixedOffsets(zones) && z.timeZone.FixedOffset?
    ensures var r := WithPlainTime(z, Some(Ok(t)), zones).value;
            LocalDateTime(r, zones) == DateTime(LocalDateTime(z, zones).date, t)
  {
    var r := WithPlainTime(z, Some(Ok(t)), zones).value;
    FixedOffsetRoundTrip(z.timeZone.offsetNs, r.epochNs, DateTime(LocalDateTime(z, zones).date, t));
  }

  /** startOfDay is idempotent in a fixed-offset zone: its local time is midnight. */
  lemma StartOfDayIsMidnight(z: ZonedDateTime, zones: TimeZoneMethods)
    requires HonoursFixedOffsets(zones) && z.timeZone.FixedOffset?
    ensures LocalDateTime(StartOfDay(z, zones), zones) == DateTime(LocalDateTime(z, zones).date, Midnight)
    ensures StartOfDay(StartOfDay(z, zones), zones) == StartOfDay(z, zones)
  {
    FixedOffsetRoundTrip(z.timeZone.offsetNs, StartOfDay(z, zones).epochNs, DateTime(LocalDateTime(z, zones).date, Midnight));
  }

  /**
   * ConsolidateCalendars: two equal calendars, or one of them ISO 8601 and the
   * other whatever it is, give the more specific one; two different non-ISO
   * calendars are a RangeError.
   */
  function ConsolidateCalendars(one: Calendar, two: Calendar): (r: Result<Calendar>)
    ensures r.Ok? <==> one == two || one == ISO8601 || two == ISO8601
    ensures r.Ok? && one == ISO8601 ==> r.value == two
    ensures r.Ok? && two == ISO8601 ==> r.value == one
    ensures r.Err? ==> r.error == RangeError
  {
    if one == two then Ok(two)
    else if one == ISO8601 then Ok(two)
    else if two == ISO8601 then Ok(one)
    else Err(RangeError)
  }

  /** withPlainDate: the given date at today's local time, in the same zone, with the consolidated calendar. */
  function WithPlainDate(z: ZonedDateTime, plainDate: Result<PlainDate>, zones: TimeZoneMethods): (r: Result<ZonedDateTime>)
    ensures r.Ok? ==> plainDate.Ok? && ConsolidateCalendars(z.calendar, plainDate.value.calendar) == Ok(r.value.calendar)
    ensures r.Ok? ==> r.value.timeZone == z.timeZone
    ensures r.Ok? ==> r.value.epochNs == zones.instantFor(z.timeZone, DateTime(plainDate.value.date, LocalDateTime(z, zones).time))
    ensures plainDate.Ok? && plainDate.value.calendar == z.calendar ==> r.Ok?
    ensures plainDate.Ok? ==> (r.Ok? <==> ConsolidateCalendars(z.calendar, plainDate.value.calendar).Ok?)
    ensures plainDate.Err? ==> r == Err(plainDate.error)
    ensures r.Err? && plainDate.Ok? ==> r.error == RangeError
  {
    match plainDate
    case Err(e) => Err(e)
    case Ok(pd) =>
      var dt := LocalDateTime(z, zones);
      match ConsolidateCalendars(z.calendar, pd.calendar)
      case Err(e) => Err(e)
      case Ok(calendar) =>
        Ok(ZonedDateTime(zones.instantFor(z.timeZone, DateTime(pd.date, dt.time)), z.timeZone, calendar))
  }

  /** In a fixed-offset zone, withPlainDate sets the local date and keeps the local time. */
  lemma WithPlainDateReadsBack(z: ZonedDateTime, pd: PlainDate, zones: TimeZoneMethods)
    requires HonoursFixedOffsets(zones) && z.timeZone.FixedOffset?
    requires WithPlainDate(z, Ok(pd), zones).Ok?
    ensures var r := WithPlainDate(z, Ok(pd), zones).value;
            LocalDateTime(r, zones) == DateTime(pd.date, LocalDateTime(z, zones).time)
  {
    var r := WithPlainDate(z, Ok(pd), zones).value;
    FixedOffsetRoundTrip(z.timeZone.offsetNs, r.epochNs, DateTime(pd.date, LocalDateTime(z, zones).time));
  }

  /** withTimeZone: the same exact time and calendar, read in another zone. */
  function WithTimeZone(z: ZonedDateTime, timeZone: Result<TimeZone>): (r: Result<ZonedDateTime>)
    ensures r.Ok? <==> timeZone.Ok?
    ensures r.Ok? ==> r.value.epochNs == z.epochNs && r.value.calendar == z.calendar && r.value.timeZone == timeZone.value
  {
    match timeZone
    case Err(e) => Err(e)
    case Ok(tz) => Ok(ZonedDateTime(z.epochNs, tz, z.calendar))
  }

  /** withCalendar: the same exact time and zone, read in another calendar. */
  function WithCalendar(z: ZonedDateTime, calendar: Result<Calendar>): (r: Result<ZonedDateTime>)
    ensures r.Ok? <==> calendar.Ok?
    ensures r.Ok? ==> r.value.epochNs == z.epochNs && r.value.timeZone == z.timeZone && r.value.calendar == calendar.value
  {
    match calendar
    case Err(e) => Err(e)
    case Ok(c) => Ok(ZonedDateTime(z.epochNs, z.timeZone, c))
  }

  /** Changing the zone and then the calendar, or the other way round, gives the same value. */
  lemma WithTimeZoneAndCalendarCommute(z: ZonedDateTime, tz: TimeZone, c: Calendar)
    ensures WithCalendar(WithTimeZone(z, Ok(tz)).value, Ok(c)) == WithTimeZone(WithCalendar(z, Ok(c)).value, Ok(tz))
  {
  }

  /**
   * The helpers of TemporalUtil that with, add, until, since and round call;
   * they are not part of this model. mergeAndInterpretFields stands for
   * prepareTemporalFields on the receiver, calendarMergeFields with the partial
   * fields, interpretTemporalDateTimeFields with the options and
   * parseTimeZoneOffsetString of the merged `offset`.
   */
  datatype ZonedHelpers = ZonedHelpers(
    addZonedDateTime: (int, TimeZone, Calendar, DurationRecord, Options) -> Result<int>,
    differenceInstant: (int, int, int, Unit, RoundingMode) -> int,
    toLong: int -> int,
    balanceDuration: (int, Unit) -> DurationRecord,
    differenceZonedDateTime: (int, int, TimeZone, Calendar, Unit, Options) -> DurationRecord,
    roundDuration: (DurationRecord, int, Unit, RoundingMode, ZonedDateTime) -> DurationRecord,
    adjustRoundedDurationDays: (DurationRecord, int, Unit, RoundingMode, ZonedDateTime) -> DurationRecord,
    roundISODateTime: (DateTime, int, Unit, RoundingMode, int) -> DateTime,
    offsetNanosecondsFor: (TimeZone, int) -> int,
    interpretISODateTimeOffset: (DateTime, int, TimeZone, Disambiguation, OffsetOption) -> Result<int>,
    mergeAndInterpretFields: (ZonedDateTime, ZonedPartial, Options) -> Result<(DateTime, int)>)

  /**
   * add (sign 1) and subtract (sign -1): all ten fields, each multiplied by the
   * sign, go to AddZonedDateTime; the zone and calendar are kept.
   */
  function AddDurationToOrSubtractDurationFromZonedDateTime(sign: int, z: ZonedDateTime, duration: Result<DurationRecord>, options: OptionsArg, h: ZonedHelpers): (r: Result<ZonedDateTime>)
    requires sign == 1 || sign == -1
    ensures duration.Err? ==> r == Err(duration.error)
    ensures duration.Ok? && options.OptionsOther? ==> r == Err(TypeError)
    ensures r.Ok? ==> r.value.timeZone == z.timeZone && r.value.calendar == z.calendar
    ensures duration.Ok? && GetOptionsObject(options).Ok? ==>
              var added := h.addZonedDateTime(z.epochNs, z.timeZone, z.calendar, Scaled(duration.value, sign), GetOptionsObject(options).value);
              && (r.Ok? <==> added.Ok?)
              && (added.Err? ==> r == Err(added.error))
              && (r.Ok? ==> r.value == ZonedDateTime(added.value, z.timeZone, z.calendar))
  {
    match duration
    case Err(e) => Err(e)
    case Ok(d) =>
      match GetOptionsObject(options)
      case Err(e) => Err(e)
      case Ok(opts) =>
        match h.addZonedDateTime(z.epochNs, z.timeZone, z.calendar, Scaled(d, sign), opts)
        case Err(e) => Err(e)
        case Ok(ns) => Ok(ZonedDateTime(ns, z.timeZone, z.calendar))
  }

  /** subtract is add of the negated duration. */
  lemma ZonedSubtractIsAddOfNegation(z: ZonedDateTime, d: DurationRecord, options: OptionsArg, h: ZonedHelpers)
    ensures AddDurationToOrSubtractDurationFromZonedDateTime(-1, z, Ok(d), options, h)
         == AddDurationToOrSubtractDurationFromZonedDateTime(1, z, Ok(Scaled(d, -1)), options, h)
  {
    assert Scaled(Scaled(d, -1), 1) == Scaled(d, -1);
  }

  /** The options until and since read: no unit is disallowed, and the largest unit defaults to the larger of hour and the smallest unit. */
  function ZonedDifferenceSettings(options: OptionsArg): (r: Result<DifferenceSettings>)
    ensures r.Ok? ==> UnitRank(r.value.largestUnit) <= UnitRank(r.value.smallestUnit)
    ensures options == OptionsUndefined ==> r == Ok(DifferenceSettings(Nanosecond, Hour, Trunc, 1))
    ensures r.Ok? ==> GetOptionsObject(options).Ok?
  {
    match GetOptionsObject(options)
    case Err(e) => Err(e)
    case Ok(opts) => GetDifferenceSettings(opts, {}, s => LargerOfTwoUnits(Hour, s))
  }

  /**
   * until (sign 1) and the shared difference with sign -1: different calendars
   * are a RangeError; a time-only largest unit measures the exact times and
   * never compares the zones; a calendar largest unit requires the same zone.
   * since negates the rounding mode, and every result field is multiplied by the sign.
   */
  function DifferenceTemporalZonedDateTime(sign: int, z: ZonedDateTime, other: Result<ZonedDateTime>, options: OptionsArg, h: ZonedHelpers): (r: Result<DurationRecord>)
    requires sign == 1 || sign == -1
    ensures other.Err? ==> r == Err(other.error)
    ensures other.Ok? && other.value.calendar != z.calendar ==> r == Err(RangeError)
    ensures r.Ok? ==> ZonedDifferenceSettings(options).Ok?
    ensures r.Ok? && !IsDateUnit(ZonedDifferenceSettings(options).value.largestUnit) ==>
              r.value.years == 0 && r.value.months == 0 && r.value.weeks == 0 && r.value.days == 0
    ensures r.Ok? && IsDateUnit(ZonedDifferenceSettings(options).value.largestUnit) ==> other.value.timeZone == z.timeZone
    ensures (other.Ok? && other.value.calendar == z.calendar && ZonedDifferenceSettings(options).Ok?
             && !IsDateUnit(ZonedDifferenceSettings(options).value.largestUnit)) ==> r.Ok?
    ensures (other.Ok? && other.value.calendar == z.calendar && ZonedDifferenceSettings(options).Ok?
             && IsDateUnit(ZonedDifferenceSettings(options).value.largestUnit) && other.value.timeZone != z.timeZone) ==> r == Err(RangeError)
    ensures (other.Ok? && other.value.calendar == z.calendar && ZonedDifferenceSettings(options).Ok?
             && IsDateUnit(ZonedDifferenceSettings(options).value.largestUnit) && other.value.timeZone == z.timeZone) ==> r.Ok?
    ensures r.Ok? && !IsDateUnit(ZonedDifferenceSettings(options).value.largestUnit) ==>
              var s := ZonedDifferenceSettings(options).value;
              var mode := if sign == -1 then NegateRoundingMode(s.roundingMode) else s.roundingMode;
              var ns := h.differenceInstant(z.epochNs, other.value.epochNs, s.roundingIncrement, s.smallestUnit, mode);
              r.value == Scaled(TimePart(h.balanceDuration(h.toLong(ns), s.largestUnit)), sign)
    ensures r.Ok? && IsDateUnit(ZonedDifferenceSettings(options).value.largestUnit) ==>
              var s := ZonedDifferenceSettings(options).value;
              var mode := if sign == -1 then NegateRoundingMode(s.roundingMode) else s.roundingMode;
              var untilOptions := GetOptionsObject(options).value.(largestUnit := UnitGiven(s.largestUnit));
              var difference := h.differenceZonedDateTime(z.epochNs, other.value.epochNs, z.timeZone, z.calendar, s.largestUnit, untilOptions);
              var rounded := h.roundDuration(difference, s.roundingIncrement, s.smallestUnit, mode, z);
              r.value == Scaled(h.adjustRoundedDurationDays(rounded, s.roundingIncrement, s.smallestUnit, mode, z), sign)
  {
    match other
    case Err(e) => Err(e)
    case Ok(o) =>
      if z.calendar != o.calendar then Err(RangeError)
      else
        match ZonedDifferenceSettings(options)
        case Err(e) => Err(e)
        case Ok(s) =>
          var mode := if sign == -1 then NegateRoundingMode(s.roundingMode) else s.roundingMode;
          if !IsDateUnit(s.largestUnit) then
            var differenceNs := h.toLong(h.differenceInstant(z.epochNs, o.epochNs, s.roundingIncrement, s.smallestUnit, mode));
            var balanceResult := h.balanceDuration(differenceNs, s.largestUnit);
            Ok(Scaled(TimePart(balanceResult), sign))
          else if z.timeZone != o.timeZone then Err(RangeError)
          else
            var untilOptions := GetOptionsObject(options).value.(largestUnit := UnitGiven(s.largestUnit));
            var difference := h.differenceZonedDateTime(z.epochNs, o.epochNs, z.timeZone, z.calendar, s.largestUnit, untilOptions);
            var roundResult := h.roundDuration(difference, s.roundingIncrement, s.smallestUnit, mode, z);
            var result := h.adjustRoundedDurationDays(roundResult, s.roundingIncrement, s.smallestUnit, mode, z);
            Ok(Scaled(result, sign))
  }

  /**
   * since, as its own implementation: the same steps as the shared difference
   * with the mode negated and every field negated, except that the time-only
   * path does not narrow the nanosecond difference to a Java long.
   */
  function Since(z: ZonedDateTime, other: Result<ZonedDateTime>, options: OptionsArg, h: ZonedHelpers): (r: Result<DurationRecord>)
    ensures other.Err? ==> r == Err(other.error)
    ensures other.Ok? && other.value.calendar != z.calendar ==> r == Err(RangeError)
    ensures r.Ok? ==> ZonedDifferenceSettings(options).Ok?
    ensures r.Ok? && !IsDateUnit(ZonedDifferenceSettings(options).value.largestUnit) ==>
              r.value.years == 0 && r.value.months == 0 && r.value.weeks == 0 && r.value.days == 0
    ensures r.Ok? && IsDateUnit(ZonedDifferenceSettings(options).value.largestUnit) ==> other.value.timeZone == z.timeZone
    ensures (other.Ok? && other.value.calendar == z.calendar && ZonedDifferenceSettings(options).Ok?) ==>
              (r.Ok? <==> !IsDateUnit(ZonedDifferenceSettings(options).value.largestUnit) || other.value.timeZone == z.timeZone)
    ensures r.Err? && other.Ok? && other.value.calendar == z.calendar && ZonedDifferenceSettings(options).Ok? ==> r.error == RangeError
  {
    match other
    case Err(e) => Err(e)
    case Ok(o) =>
      if z.calendar != o.calendar then Err(RangeError)
      else
        match ZonedDifferenceSettings(options)
        case Err(e) => Err(e)
        case Ok(s) =>
          var mode := NegateRoundingMode(s.roundingMode);
          if !IsDateUnit(s.largestUnit) then
            var differenceNs := h.differenceInstant(z.epochNs, o.epochNs, s.roundingIncrement, s.smallestUnit, mode);
            var balanceResult := h.balanceDuration(differenceNs, s.largestUnit);
            Ok(TimeDuration(-balanceResult.hours, -balanceResult.minutes, -balanceResult.seconds,
              -balanceResult.milliseconds, -balanceResult.microseconds, -balanceResult.nanoseconds))
          else if z.timeZone != o.timeZone then Err(RangeError)
          else
            var untilOptions := GetOptionsObject(options).value.(largestUnit := UnitGiven(s.largestUnit));
            var difference := h.differenceZonedDateTime(z.epochNs, o.epochNs, z.timeZone, z.calendar, s.largestUnit, untilOptions);
            var roundResult := h.roundDuration(difference, s.roundingIncrement, s.smallestUnit, mode, z);
            var r := h.adjustRoundedDurationDays(roundResult, s.roundingIncrement, s.smallestUnit, mode, z);
            Ok(DurationRecord(-r.years, -r.months, -r.weeks, -r.days, -r.hours, -r.minutes, -r.seconds,
              -r.milliseconds, -r.microseconds, -r.nanoseconds))
  }

  /** Narrowing to a long changes no difference the helpers produce. */
  ghost predicate LongIsExact(h: ZonedHelpers)
  {
    forall one: int, two: int, inc: int, u: Unit, m: RoundingMode ::
      h.toLong(h.differenceInstant(one, two, inc, u, m)) == h.differenceInstant(one, two, inc, u, m)
  }

  /**
   * The separate since agrees with the shared difference run with sign -1
   * whenever the nanosecond difference fits a long.
   */
  lemma SinceMatchesSharedDifference(z: ZonedDateTime, other: Result<ZonedDateTime>, options: OptionsArg, h: ZonedHelpers)
    requires LongIsExact(h)
    ensures Since(z, other, options, h) == DifferenceTemporalZonedDateTime(-1, z, other, options, h)
  {
    if other.Ok? && other.value.calendar == z.calendar && ZonedDifferenceSettings(options).Ok? {
      var o := other.value;
      var s := ZonedDifferenceSettings(options).value;
      var mode := NegateRoundingMode(s.roundingMode);
      if !IsDateUnit(s.largestUnit) {
        var ns := h.differenceInstant(z.epochNs, o.epochNs, s.roundingIncrement, s.smallestUnit, mode);
        var b := h.balanceDuration(ns, s.largestUnit);
        assert h.toLong(ns) == ns;
        assert Since(z, other, options, h) == Ok(TimeDuration(-b.hours, -b.minutes, -b.seconds, -b.milliseconds, -b.microseconds, -b.nanoseconds));
        assert DifferenceTemporalZonedDateTime(-1, z, other, options, h) == Ok(Scaled(TimePart(b), -1));
      } else if z.timeZone == o.timeZone {
        var untilOptions := GetOptionsObject(options).value.(largestUnit := UnitGiven(s.largestUnit));
        var difference := h.differenceZonedDateTime(z.epochNs, o.epochNs, z.timeZone, z.calendar, s.largestUnit, untilOptions);
        var roundResult := h.roundDuration(difference, s.roundingIncrement, s.smallestUnit, mode, z);
        var d := h.adjustRoundedDurationDays(roundResult, s.roundingIncrement, s.smallestUnit, mode, z);
        assert DifferenceTemporalZonedDateTime(-1, z, other, options, h) == Ok(Scaled(d, -1));
      }
    }
  }

  /** The zoned helpers measure and balance exact-time differences as the Instant helpers do. */
  ghost predicate SharesInstantDifference(zh: ZonedHelpers, ih: InstantHelpers)
  {
    && (forall one: int, two: int, inc: int, u: Unit, m: RoundingMode ::
          zh.differenceInstant(one, two, inc, u, m) == ih.differenceInstant(one, two, inc, u, m))
    && (forall ns: int, u: Unit :: zh.balanceDuration(ns, u) == ih.balanceDuration(ns, u))
  }

  /**
   * With a time unit given as largestUnit, ZonedDateTime until is Instant until
   * of the two exact times: the zones are never consulted, and the options,
   * including the errors they raise, are read alike.
   */
  lemma ZonedUntilAgreesWithInstantUntil(z: ZonedDateTime, o: ZonedDateTime, opts: Options, u: Unit, zh: ZonedHelpers, ih: InstantHelpers)
    requires LongIsExact(zh) && SharesInstantDifference(zh, ih)
    requires opts.largestUnit == UnitGiven(u) && !IsDateUnit(u)
    requires o.calendar == z.calendar
    ensures DifferenceTemporalZonedDateTime(1, z, Ok(o), OptionsObject(opts), zh)
         == UntilOrSince(true, Instant(z.epochNs), Ok(Instant(o.epochNs)), OptionsObject(opts), ih)
  {
    TimeLargestUnitMakesDateUnitsIrrelevant(opts, u, s => LargerOfTwoUnits(Hour, s), s => LargerOfTwoUnits(Second, s));
    var settings := ZonedDifferenceSettings(OptionsObject(opts));
    if settings.Ok? {
      var s := settings.value;
      var ns := zh.differenceInstant(z.epochNs, o.epochNs, s.roundingIncrement, s.smallestUnit, s.roundingMode);
      assert zh.toLong(ns) == ns;
      var b := zh.balanceDuration(ns, s.largestUnit);
      assert b == ih.balanceDuration(ih.differenceInstant(z.epochNs, o.epochNs, s.roundingIncrement, s.smallestUnit, s.roundingMode), s.largestUnit);
      assert Scaled(TimePart(b), 1) == TimePart(b);
    }
  }

  /** Scaling by -1 negates every field. */
  lemma ScaledByMinusOne(d: DurationRecord)
    ensures Scaled(d, -1) == DurationRecord(-d.years, -d.months, -d.weeks, -d.days, -d.hours, -d.minutes, -d.seconds,
                                            -d.milliseconds, -d.microseconds, -d.nanoseconds)
  {
  }

  /** ToTemporalDateTimeRoundingIncrement: a day rounds by at most one day, inclusive; smaller units as in until/since. */
  function DateTimeRoundingIncrement(increment: Option<int>, smallestUnit: Unit): (r: Result<int>)
    ensures r.Ok? ==> r.value >= 1
    ensures r.Ok? && smallestUnit == Day ==> r.value == 1
    ensures r.Ok? ==> r.value == (if increment.Some? then increment.value else 1)
    ensures r.Err? ==> r.error == RangeError
    ensures smallestUnit == Day ==> (r.Ok? <==> increment.None? || increment.value == 1)
    ensures IsDateUnit(smallestUnit) && smallestUnit != Day ==> (r.Ok? <==> increment.None? || increment.value >= 1)
    ensures !IsDateUnit(smallestUnit) ==>
              var inc := if increment.Some? then increment.value else 1;
              (r.Ok? <==> 1 <= inc < MaximumDurationRoundingIncrement(smallestUnit).value
                          && MaximumDurationRoundingIncrement(smallestUnit).value % inc == 0)
    ensures r.Ok? && !IsDateUnit(smallestUnit) ==>
              r.value < MaximumDurationRoundingIncrement(smallestUnit).value && MaximumDurationRoundingIncrement(smallestUnit).value % r.value == 0
  {
    if smallestUnit == Day then ToRoundingIncrement(increment, Some(1), true)
    else ToRoundingIncrement(increment, MaximumDurationRoundingIncrement(smallestUnit), false)
  }

  /**
   * round: undefined and non-object arguments are TypeErrors, a missing
   * smallestUnit or a disallowed one a RangeError; the local day is measured
   * from local midnight to the next, and a day of zero length is a RangeError.
   */
  function Round(z: ZonedDateTime, roundTo: RoundToArg, zones: TimeZoneMethods, h: ZonedHelpers): (r: Result<ZonedDateTime>)
    ensures roundTo.RoundToUndefined? || roundTo.RoundToOther? ==> r == Err(TypeError)
    ensures roundTo.RoundToObject? && roundTo.options.smallestUnit.UnitAbsent? ==> r == Err(RangeError)
    ensures r.Ok? ==> r.value.timeZone == z.timeZone && r.value.calendar == z.calendar
    ensures r.Ok? ==> RoundDayLength(z, zones, h).Ok? && RoundDayLength(z, zones, h).value != 0
    ensures (var s := GetRoundSettings(roundTo, {Year, Month, Week});
             s.Ok? && DateTimeRoundingIncrement(s.value.options.roundingIncrement, s.value.smallestUnit).Ok?
             && RoundDayLength(z, zones, h) == Ok(0)) ==> r == Err(RangeError)
    ensures r.Ok? ==> GetRoundSettings(roundTo, {Year, Month, Week}).Ok?
    ensures r.Ok? ==>
              var s := GetRoundSettings(roundTo, {Year, Month, Week}).value;
              DateTimeRoundingIncrement(s.options.roundingIncrement, s.smallestUnit).Ok?
    ensures r.Ok? ==>
              var s := GetRoundSettings(roundTo, {Year, Month, Week}).value;
              var inc := DateTimeRoundingIncrement(s.options.roundingIncrement, s.smallestUnit).value;
              var rounded := h.roundISODateTime(LocalDateTime(z, zones), inc, s.smallestUnit, s.roundingMode, RoundDayLength(z, zones, h).value);
              h.interpretISODateTimeOffset(rounded, h.offsetNanosecondsFor(z.timeZone, z.epochNs), z.timeZone, Compatible, Prefer) == Ok(r.value.epochNs)
    ensures (var s := GetRoundSettings(roundTo, {Year, Month, Week});
             s.Ok? && DateTimeRoundingIncrement(s.value.options.roundingIncrement, s.value.smallestUnit).Ok?
             && RoundDayLength(z, zones, h).Ok? && RoundDayLength(z, zones, h).value != 0) ==>
              var s := GetRoundSettings(roundTo, {Year, Month, Week}).value;
              var inc := DateTimeRoundingIncrement(s.options.roundingIncrement, s.smallestUnit).value;
              var rounded := h.roundISODateTime(LocalDateTime(z, zones), inc, s.smallestUnit, s.roundingMode, RoundDayLength(z, zones, h).value);
              var interpreted := h.interpretISODateTimeOffset(rounded, h.offsetNanosecondsFor(z.timeZone, z.epochNs), z.timeZone, Compatible, Prefer);
              && (interpreted.Err? ==> r == Err(interpreted.error))
              && (interpreted.Ok? ==> r == Ok(ZonedDateTime(interpreted.value, z.timeZone, z.calendar)))
  {
    match GetRoundSettings(roundTo, {Year, Month, Week})
    case Err(e) => Err(e)
    case Ok(s) =>
      match DateTimeRoundingIncrement(s.options.roundingIncrement, s.smallestUnit)
      case Err(e) => Err(e)
      case Ok(inc) =>
        match RoundDayLength(z, zones, h)
        case Err(e) => Err(e)
        case Ok(dayLengthNs) =>
          if dayLengthNs == 0 then Err(RangeError)
          else
            var tdt := LocalDateTime(z, zones);
            var roundResult := h.roundISODateTime(tdt, inc, s.smallestUnit, s.roundingMode, dayLengthNs);
            var offsetNs := h.offsetNanosecondsFor(z.timeZone, z.epochNs);
            match h.interpretISODateTimeOffset(roundResult, offsetNs, z.timeZone, Compatible, Prefer)
            case Err(e) => Err(e)
            case Ok(ns) => Ok(ZonedDateTime(ns, z.timeZone, z.calendar))
  }

  /** The length of the local day round measures: one day added to local midnight, minus local midnight. */
  function RoundDayLength(z: ZonedDateTime, zones: TimeZoneMethods, h: ZonedHelpers): (r: Result<int>)
    ensures r.Ok? <==> h.addZonedDateTime(StartOfDay(z, zones).epochNs, z.timeZone, z.calendar, DurationRecord(0, 0, 0, 1, 0, 0, 0, 0, 0, 0), NoOptions).Ok?
  {
    var startNs := StartOfDay(z, zones).epochNs;
    match h.addZonedDateTime(startNs, z.timeZone, z.calendar, DurationRecord(0, 0, 0, 1, 0, 0, 0, 0, 0, 0), NoOptions)
    case Err(e) => Err(e)
    case Ok(endNs) => Ok(endNs - startNs)
  }

  /** equals: the same exact time, the same time zone and the same calendar. */
  function Equals(a: ZonedDateTime, b: ZonedDateTime): (r: bool)
    ensures r <==> a == b
  {
    if a.epochNs != b.epochNs then false
    else if a.timeZone != b.timeZone then false
    else a.calendar == b.calendar
  }

  /** toInstant: the exact time alone. */
  function ToInstant(z: ZonedDateTime): (r: Instant)
    ensures r.epochNs == z.epochNs
  {
    Instant(z.epochNs)
  }

  /** toPlainDate: the local date, with the calendar. */
  function ToPlainDate(z: ZonedDateTime, zones: TimeZoneMethods): (r: PlainDate)
    ensures r.calendar == z.calendar
    ensures r.date == LocalDateTime(z, zones).date
  {
    PlainDate(LocalDateTime(z, zones).date, z.calendar)
  }

  /** toPlainTime: the local time of day. */
  function ToPlainTime(z: ZonedDateTime, zones: TimeZoneMethods): (r: ValidTime)
    ensures r == LocalDateTime(z, zones).time
  {
    LocalDateTime(z, zones).time
  }

  /** toPlainDateTime: the local date and time, with the calendar. */
  function ToPlainDateTime(z: ZonedDateTime, zones: TimeZoneMethods): (r: PlainDateTime)
    ensures r.dateTime.date == ToPlainDate(z, zones).date && r.dateTime.time == ToPlainTime(z, zones)
    ensures r.calendar == z.calendar && r.calendar == ToPlainDate(z, zones).calendar
  {
    PlainDateTime(LocalDateTime(z, zones), z.calendar)
  }

  /** In a fixed-offset zone the local date and time determine the exact time. */
  lemma PlainDateTimeDeterminesExactTime(a: ZonedDateTime, b: ZonedDateTime, zones: TimeZoneMethods)
    requires HonoursFixedOffsets(zones) && a.timeZone.FixedOffset? && a.timeZone == b.timeZone
    requires ToPlainDateTime(a, zones) == ToPlainDateTime(b, zones)
    ensures a.epochNs == b.epochNs
  {
    FixedOffsetRoundTrip(a.timeZone.offsetNs, a.epochNs, ToPlainDateTime(a, zones).dateTime);
    FixedOffsetRoundTrip(a.timeZone.offsetNs, b.epochNs, ToPlainDateTime(b, zones).dateTime);
  }
}
