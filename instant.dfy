/**
 * Temporal.Instant.prototype: the epoch getters, add and subtract, until and
 * since, round, equals, toZonedDateTime and toZonedDateTimeISO. An Instant is an
 * exact time: an arbitrary-precision count of nanoseconds since the epoch.
 */
module InstantBuiltins {
  import opened Wrappers
  import opened JavaArith
  import opened Duration
  import opened TemporalTypes
  import opened TemporalOptions

  /** The valid range of an Instant: at most 10^8 days either side of the epoch. */
  const MAX_EPOCH_NS: int := 8_640_000_000_000_000_000_000

  predicate IsValidEpochNs(ns: int)
  {
    -MAX_EPOCH_NS <= ns <= MAX_EPOCH_NS
  }

  datatype Instant = Instant(epochNs: int)

  datatype EpochProperty = EpochSeconds | EpochMilliseconds | EpochMicroseconds | EpochNanoseconds

  /** Nanoseconds per unit of an epoch getter. */
  function EpochFactor(p: EpochProperty): (f: int)
    ensures f > 0
  {
    match p
    case EpochSeconds => 1_000_000_000
    case EpochMilliseconds => 1_000_000
    case EpochMicroseconds => 1000
    case EpochNanoseconds => 1
  }

  /**
   * The epoch getters: epochNanoseconds divided by the getter's unit, truncating
   * toward zero (BigInteger division), so the quotient never has a larger
   * magnitude than the exact one.
   */
  function InstantGetter(instant: Instant, p: EpochProperty): (r: int)
    ensures p == EpochNanoseconds ==> r == instant.epochNs
    ensures 0 <= instant.epochNs ==> 0 <= instant.epochNs - r * EpochFactor(p) < EpochFactor(p)
    ensures instant.epochNs < 0 ==> -EpochFactor(p) < instant.epochNs - r * EpochFactor(p) <= 0
  {
    TruncDiv(instant.epochNs, EpochFactor(p))
  }

  /** Truncating twice by 1000 is truncating once by a million. */
  lemma TruncDivThousands(n: int)
    ensures TruncDiv(TruncDiv(n, 1000), 1000) == TruncDiv(n, 1_000_000)
  {
    if n < 0 {
      TruncDivOdd(n, 1000);
      TruncDivOdd(TruncDiv(-n, 1000), 1000);
      TruncDivOdd(n, 1_000_000);
    }
  }

  /** The getters nest: each is the next finer one truncated by 1000. */
  lemma EpochGettersNest(instant: Instant)
    ensures InstantGetter(instant, EpochMicroseconds) == TruncDiv(InstantGetter(instant, EpochNanoseconds), 1000)
    ensures InstantGetter(instant, EpochMilliseconds) == TruncDiv(InstantGetter(instant, EpochMicroseconds), 1000)
    ensures InstantGetter(instant, EpochSeconds) == TruncDiv(InstantGetter(instant, EpochMilliseconds), 1000)
  {
    TruncDivThousands(instant.epochNs);
    var us := TruncDiv(instant.epochNs, 1000);
    TruncDivThousands(us);
    assert TruncDiv(TruncDiv(us, 1000), 1000) == TruncDiv(us, 1_000_000);
    TruncDivThousands2(instant.epochNs);
  }

  /** Truncating by a thousand and then by a million is truncating by a billion. */
  lemma TruncDivThousands2(n: int)
    ensures TruncDiv(TruncDiv(n, 1000), 1_000_000) == TruncDiv(n, 1_000_000_000)
  {
    if n < 0 {
      TruncDivOdd(n, 1000);
      TruncDivOdd(TruncDiv(-n, 1000), 1_000_000);
      TruncDivOdd(n, 1_000_000_000);
    }
  }

  /**
   * ToLimitedTemporalDuration with years, months, weeks and days disallowed: the
   * converted duration, or RangeError when one of those is non-zero.
   */
  function ToLimitedTimeDuration(duration: Result<DurationRecord>): (r: Result<DurationRecord>)
    ensures r.Ok? <==> duration.Ok? && duration.value.years == 0 && duration.value.months == 0 && duration.value.weeks == 0 && duration.value.days == 0
    ensures r.Ok? ==> r == duration
    ensures duration.Ok? && r.Err? ==> r.error == RangeError
  {
    match duration
    case Err(e) => Err(e)
    case Ok(d) => if d.years != 0 || d.months != 0 || d.weeks != 0 || d.days != 0 then Err(RangeError) else Ok(d)
  }

  /** AddInstant: the six time fields in nanoseconds added to the exact time; leaving the valid range is a RangeError. */
  function AddInstant(epochNs: int, duration: DurationRecord): (r: Result<int>)
    ensures r.Ok? <==> IsValidEpochNs(epochNs + TimeFieldsNs(duration))
    ensures r.Ok? ==> r.value == epochNs + TimeFieldsNs(duration)
    ensures r.Err? ==> r.error == RangeError
  {
    var ns := epochNs + TimeFieldsNs(duration);
    if IsValidEpochNs(ns) then Ok(ns) else Err(RangeError)
  }

  /**
   * add (sign 1) and subtract (sign -1): the time fields, each multiplied by the
   * sign, move the exact time; a duration with calendar fields is a RangeError.
   */
  function AddDurationToOrSubtractDurationFromInstant(sign: int, instant: Instant, duration: Result<DurationRecord>): (r: Result<Instant>)
    requires sign == 1 || sign == -1
    ensures (duration.Ok? && (duration.value.years != 0 || duration.value.months != 0 || duration.value.weeks != 0 || duration.value.days != 0))
              ==> r == Err(RangeError)
    ensures r.Ok? ==> duration.Ok? && IsValidEpochNs(r.value.epochNs)
    ensures r.Ok? ==> r.value.epochNs == instant.epochNs + (if sign == 1 then TimeFieldsNs(duration.value) else -TimeFieldsNs(duration.value))
    ensures duration.Err? ==> r == Err(duration.error)
    ensures (duration.Ok? && duration.value.years == 0 && duration.value.months == 0 && duration.value.weeks == 0 && duration.value.days == 0)
            ==> var ns := instant.epochNs + (if sign == 1 then TimeFieldsNs(duration.value) else -TimeFieldsNs(duration.value));
                (r.Ok? <==> IsValidEpochNs(ns)) && (r.Err? ==> r.error == RangeError)
  {
    match ToLimitedTimeDuration(duration)
    case Err(e) => Err(e)
    case Ok(d) =>
      ScaledTimeFieldsNs(d, sign);
      match AddInstant(instant.epochNs, Scaled(d, sign))
      case Err(e) => Err(e)
      case Ok(ns) => Ok(Instant(ns))
  }

  /** Subtracting a duration undoes adding it, whenever the addition succeeds from a valid instant. */
  lemma InstantSubtractUndoesAdd(instant: Instant, duration: DurationRecord)
    requires IsValidEpochNs(instant.epochNs)
    requires AddDurationToOrSubtractDurationFromInstant(1, instant, Ok(duration)).Ok?
    ensures AddDurationToOrSubtractDurationFromInstant(-1, AddDurationToOrSubtractDurationFromInstant(1, instant, Ok(duration)).value, Ok(duration)) == Ok(instant)
  {
    ScaledTimeFieldsNs(duration, -1);
  }

  /** subtract is add of the negated duration. */
  lemma InstantSubtractIsAddOfNegation(instant: Instant, duration: Result<DurationRecord>)
    ensures AddDurationToOrSubtractDurationFromInstant(-1, instant, duration)
         == AddDurationToOrSubtractDurationFromInstant(1, instant, if duration.Ok? then Ok(Scaled(duration.value, -1)) else duration)
  {
    if duration.Ok? {
      ScaledTimeFieldsNs(duration.value, -1);
      ScaledTimeFieldsNs(Scaled(duration.value, -1), 1);
    }
  }

  /** The helpers of TemporalUtil that until, since and round call; they are not part of this model. */
  datatype InstantHelpers = InstantHelpers(
    differenceInstant: (int, int, int, Unit, RoundingMode) -> int,
    balanceDuration: (int, Unit) -> DurationRecord,
    roundInstant: (int, int, Unit, RoundingMode) -> int)

  /**
   * until and since: until measures from the receiver to the other instant,
   * since from the other to the receiver; neither negates the rounding mode or
   * the result. The largest unit defaults to the larger of second and the
   * smallest unit.
   */
  function UntilOrSince(isUntil: bool, instant: Instant, other: Result<Instant>, options: OptionsArg, h: InstantHelpers): (r: Result<DurationRecord>)
    ensures other.Err? ==> r == Err(other.error)
    ensures other.Ok? && options.OptionsOther? ==> r == Err(TypeError)
    ensures r.Ok? ==> r.value.years == 0 && r.value.months == 0 && r.value.weeks == 0 && r.value.days == 0
    ensures r.Ok? <==> other.Ok? && GetOptionsObject(options).Ok?
                       && GetDifferenceSettings(GetOptionsObject(options).value, YearMonthWeekDay, s => LargerOfTwoUnits(Second, s)).Ok?
    ensures r.Ok? ==>
              var s := GetDifferenceSettings(GetOptionsObject(options).value, YearMonthWeekDay, s => LargerOfTwoUnits(Second, s)).value;
              r.value == TimePart(h.balanceDuration(
                h.differenceInstant(if isUntil then instant.epochNs else other.value.epochNs,
                                    if isUntil then other.value.epochNs else instant.epochNs,
                                    s.roundingIncrement, s.smallestUnit, s.roundingMode), s.largestUnit))
    ensures r.Ok? && options.OptionsUndefined? ==>
              r.value == TimePart(h.balanceDuration(
                h.differenceInstant(if isUntil then instant.epochNs else other.value.epochNs,
                                    if isUntil then other.value.epochNs else instant.epochNs,
                                    1, Nanosecond, Trunc), Second))
  {
    match other
    case Err(e) => Err(e)
    case Ok(o) =>
      match GetOptionsObject(options)
      case Err(e) => Err(e)
      case Ok(opts) =>
        match GetDifferenceSettings(opts, YearMonthWeekDay, s => LargerOfTwoUnits(Second, s))
        case Err(e) => Err(e)
        case Ok(s) =>
          var one := if isUntil then instant.epochNs else o.epochNs;
          var two := if isUntil then o.epochNs else instant.epochNs;
          var roundedNs := h.differenceInstant(one, two, s.roundingIncrement, s.smallestUnit, s.roundingMode);
          Ok(TimePart(h.balanceDuration(roundedNs, s.largestUnit)))
  }

  /** since is until with the operands swapped. */
  lemma SinceSwapsOperands(a: Instant, b: Instant, options: OptionsArg, h: InstantHelpers)
    ensures UntilOrSince(false, a, Ok(b), options, h) == UntilOrSince(true, b, Ok(a), options, h)
  {
  }

  /** Nanoseconds in one of a time unit. */
  function UnitNs(u: Unit): (r: int)
    requires !IsDateUnit(u)
    ensures r > 0
  {
    match u
    case Hour => NS_PER_HOUR
    case Minute => 60_000_000_000
    case Second => 1_000_000_000
    case Millisecond => 1_000_000
    case Microsecond => 1000
    case Nanosecond => 1
  }

  /** The largest increment Instant round admits: how many of the unit make a day. */
  function InstantRoundingMaximum(u: Unit): (r: int)
    requires !IsDateUnit(u)
    ensures r * UnitNs(u) == NS_PER_DAY
  {
    if u == Hour then 24
    else if u == Minute then 60 * 24
    else if u == Second then 60 * 60 * 24
    else if u == Millisecond then 86_400_000
    else if u == Microsecond then 86_400_000 * 1000
    else NS_PER_DAY
  }

  /**
   * round: undefined and non-object arguments are TypeErrors, a missing
   * smallestUnit a RangeError; the increment must divide the number of units in
   * a day and may equal it.
   */
  function RoundInstant(instant: Instant, roundTo: RoundToArg, h: InstantHelpers): (r: Result<Instant>)
    ensures roundTo.RoundToUndefined? || roundTo.RoundToOther? ==> r == Err(TypeError)
    ensures roundTo.RoundToObject? && roundTo.options.smallestUnit.UnitAbsent? ==> r == Err(RangeError)
    ensures GetRoundSettings(roundTo, YearMonthWeekDay).Err? ==> r == Err(GetRoundSettings(roundTo, YearMonthWeekDay).error)
    ensures GetRoundSettings(roundTo, YearMonthWeekDay).Ok? ==>
              var s := GetRoundSettings(roundTo, YearMonthWeekDay).value;
              var inc := if s.options.roundingIncrement.Some? then s.options.roundingIncrement.value else 1;
              && !IsDateUnit(s.smallestUnit)
              && (r.Ok? <==> 1 <= inc <= InstantRoundingMaximum(s.smallestUnit) && InstantRoundingMaximum(s.smallestUnit) % inc == 0)
              && (r.Err? ==> r.error == RangeError)
              && (r.Ok? ==> r.value == Instant(h.roundInstant(instant.epochNs, inc, s.smallestUnit, s.roundingMode)))
  {
    match GetRoundSettings(roundTo, YearMonthWeekDay)
    case Err(e) => Err(e)
    case Ok(s) =>
      match ToRoundingIncrement(s.options.roundingIncrement, Some(InstantRoundingMaximum(s.smallestUnit)), true)
      case Err(e) => Err(e)
      case Ok(inc) => Ok(Instant(h.roundInstant(instant.epochNs, inc, s.smallestUnit, s.roundingMode)))
  }

  /**
   * Unlike PlainTime round, an increment of a whole day is accepted: for every
   * time unit, as many of it as make a day round an Instant.
   */
  lemma RoundAcceptsWholeDay(instant: Instant, u: Unit, h: InstantHelpers)
    requires !IsDateUnit(u)
    ensures var max := InstantRoundingMaximum(u);
            RoundInstant(instant, RoundToObject(NoOptions.(smallestUnit := UnitGiven(u), roundingIncrement := Some(max))), h)
              == Ok(Instant(h.roundInstant(instant.epochNs, max, u, HalfExpand)))
  {
  }

  /** equals: the two exact times are the same. */
  function Equals(a: Instant, b: Instant): (r: bool)
    ensures r <==> a == b
  {
    a.epochNs == b.epochNs
  }

  /**
   * The argument of toZonedDateTime: a non-object, or an object whose `calendar`
   * and `timeZone` properties are undefined or the outcome of converting them.
   */
  datatype CalendarZoneItem = CalendarZoneNotObject | CalendarZoneObject(calendar: Option<Result<Calendar>>, timeZone: Option<Result<TimeZone>>)

  /**
   * toZonedDateTime: the item must be an object with both a `calendar` and a
   * `timeZone` (TypeError otherwise, calendar first); the exact time is kept.
   */
  function ToZonedDateTime(instant: Instant, item: CalendarZoneItem): (r: Result<ZonedDateTime>)
    ensures item.CalendarZoneNotObject? ==> r == Err(TypeError)
    ensures item.CalendarZoneObject? && item.calendar.None? ==> r == Err(TypeError)
    ensures item.CalendarZoneObject? && item.calendar.Some? && item.calendar.value.Ok? && item.timeZone.None? ==> r == Err(TypeError)
    ensures r.Ok? <==> item.CalendarZoneObject? && item.calendar.Some? && item.calendar.value.Ok? && item.timeZone.Some? && item.timeZone.value.Ok?
    ensures r.Ok? ==> r.value == ZonedDateTime(instant.epochNs, item.timeZone.value.value, item.calendar.value.value)
  {
    match item
    case CalendarZoneNotObject => Err(TypeError)
    case CalendarZoneObject(calendar, timeZone) =>
      if calendar.None? then Err(TypeError)
      else
        match calendar.value
        case Err(e) => Err(e)
        case Ok(cal) =>
          if timeZone.None? then Err(TypeError)
          else
            match timeZone.value
            case Err(e) => Err(e)
            case Ok(zone) => Ok(ZonedDateTime(instant.epochNs, zone, cal))
  }

  /**
   * The argument of toZonedDateTimeISO, with the outcome of converting it to a
   * time zone; an object may also carry a `timeZone` property, itself converted.
   */
  datatype ZoneItem = ZonePrimitive(asZone: Result<TimeZone>) | ZoneObject(timeZoneProperty: Option<Result<TimeZone>>, asZone: Result<TimeZone>)

  /**
   * toZonedDateTimeISO: an object's `timeZone` property, when defined, stands
   * for the object; the calendar is always ISO 8601 and the exact time is kept.
   */
  function ToZonedDateTimeISO(instant: Instant, item: ZoneItem): (r: Result<ZonedDateTime>)
    ensures item.ZoneObject? && item.timeZoneProperty.Some? ==>
              r == (if item.timeZoneProperty.value.Ok? then Ok(ZonedDateTime(instant.epochNs, item.timeZoneProperty.value.value, ISO8601))
                    else Err(item.timeZoneProperty.value.error))
    ensures r.Ok? ==> r.value.epochNs == instant.epochNs && r.value.calendar == ISO8601
    ensures item.ZonePrimitive? ==> (r.Ok? <==> item.asZone.Ok?) && (r.Ok? ==> r.value.timeZone == item.asZone.value)
    ensures item.ZoneObject? && item.timeZoneProperty.None? ==>
              (r.Ok? <==> item.asZone.Ok?) && (r.Ok? ==> r.value.timeZone == item.asZone.value)
              && (r.Err? ==> r.error == item.asZone.error)
  {
    var zone := if item.ZoneObject? && item.timeZoneProperty.Some? then item.timeZoneProperty.value else item.asZone;
    match zone
    case Err(e) => Err(e)
    case Ok(z) => Ok(ZonedDateTime(instant.epochNs, z, ISO8601))
  }
}
