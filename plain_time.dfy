/**
 * Temporal.PlainTime.prototype: add and subtract, until and since, with, round,
 * equals and toZonedDateTime. A PlainTime is a wall-clock time of day; every
 * operation builds a new one from the receiver's six fields.
 */
module PlainTime {
  import opened Wrappers
  import opened IsoDate
  import opened Duration
  import opened TemporalTypes
  import opened TemporalOptions

  /**
   * AddTime followed by BalanceTime: the time of day `ns` nanoseconds later,
   * wrapping around midnight; the carry into days is dropped.
   */
  function AddTime(t: ValidTime, ns: int): (r: ValidTime)
    ensures TimeNs(r) == (TimeNs(t) + ns) % NS_PER_DAY
  {
    TimeOfNs((TimeNs(t) + ns) % NS_PER_DAY)
  }

  /**
   * add (sign 1) and subtract (sign -1): the six time fields of the duration,
   * each multiplied by the sign, are added to the time of day. The calendar
   * fields of the duration play no part.
   */
  function AddDurationToOrSubtractDurationFromPlainTime(sign: int, t: ValidTime, duration: DurationRecord): (r: ValidTime)
    requires sign == 1 || sign == -1
    ensures TimeNs(r) == (TimeNs(t) + (if sign == 1 then TimeFieldsNs(duration) else -TimeFieldsNs(duration))) % NS_PER_DAY
  {
    ScaledTimeFieldsNs(duration, sign);
    AddTime(t, TimeFieldsNs(Scaled(duration, sign)))
  }

  /** Shifting by whole days leaves the time of day alone. */
  lemma ModShift(a: int, q: int)
    requires 0 <= a < NS_PER_DAY
    ensures (a + q * NS_PER_DAY) % NS_PER_DAY == a
  {
  }

  /** Going forward and back by the same amount on the clock face returns to the start. */
  lemma WrapAddSub(a: int, x: int)
    requires 0 <= a < NS_PER_DAY
    ensures ((a + x) % NS_PER_DAY - x) % NS_PER_DAY == a
  {
    var q := (a + x) / NS_PER_DAY;
    assert (a + x) % NS_PER_DAY - x == a + (-q) * NS_PER_DAY;
    ModShift(a, -q);
  }

  /** Subtracting a duration undoes adding it. */
  lemma SubtractUndoesAdd(t: ValidTime, duration: DurationRecord)
    ensures AddDurationToOrSubtractDurationFromPlainTime(-1, AddDurationToOrSubtractDurationFromPlainTime(1, t, duration), duration) == t
  {
    var a := AddDurationToOrSubtractDurationFromPlainTime(1, t, duration);
    var s := AddDurationToOrSubtractDurationFromPlainTime(-1, a, duration);
    WrapAddSub(TimeNs(t), TimeFieldsNs(duration));
    TimeNsInjective(s, t);
  }

  /** subtract is add of the negated duration. */
  lemma SubtractIsAddOfNegation(t: ValidTime, duration: DurationRecord)
    ensures AddDurationToOrSubtractDurationFromPlainTime(-1, t, duration) == AddDurationToOrSubtractDurationFromPlainTime(1, t, Scaled(duration, -1))
  {
    ScaledTimeFieldsNs(duration, -1);
    TimeNsInjective(AddDurationToOrSubtractDurationFromPlainTime(-1, t, duration), AddDurationToOrSubtractDurationFromPlainTime(1, t, Scaled(duration, -1)));
  }

  /** Adding a whole number of days gives the same time of day. */
  lemma AddWholeDays(t: ValidTime, duration: DurationRecord)
    requires TimeFieldsNs(duration) % NS_PER_DAY == 0
    ensures AddDurationToOrSubtractDurationFromPlainTime(1, t, duration) == t
    ensures AddDurationToOrSubtractDurationFromPlainTime(-1, t, duration) == t
  {
    ScaledTimeFieldsNs(duration, -1);
    var x := TimeFieldsNs(duration);
    assert (TimeNs(t) + x) % NS_PER_DAY == TimeNs(t);
    assert (TimeNs(t) - x) % NS_PER_DAY == TimeNs(t);
    TimeNsInjective(AddDurationToOrSubtractDurationFromPlainTime(1, t, duration), t);
    TimeNsInjective(AddDurationToOrSubtractDurationFromPlainTime(-1, t, duration), t);
  }

  /**
   * RegulateTime: "constrain" clamps every field into its range, "reject"
   * throws RangeError unless the fields already form a valid time.
   */
  function RegulateTime(fields: Time, overflow: Overflow): (r: Result<ValidTime>)
    ensures IsValidTime(fields) ==> r == Ok(fields)
    ensures overflow == Reject && !IsValidTime(fields) ==> r == Err(RangeError)
    ensures overflow == Constrain ==> r.Ok?
    ensures overflow == Constrain ==>
              && r.value.hour == Clamp(fields.hour, 0, 23) && r.value.minute == Clamp(fields.minute, 0, 59)
              && r.value.second == Clamp(fields.second, 0, 59) && r.value.millisecond == Clamp(fields.millisecond, 0, 999)
              && r.value.microsecond == Clamp(fields.microsecond, 0, 999) && r.value.nanosecond == Clamp(fields.nanosecond, 0, 999)
  {
    match overflow
    case Reject => if IsValidTime(fields) then Ok(fields) else Err(RangeError)
    case Constrain =>
      Ok(Time(Clamp(fields.hour, 0, 23), Clamp(fields.minute, 0, 59), Clamp(fields.second, 0, 59),
        Clamp(fields.millisecond, 0, 999), Clamp(fields.microsecond, 0, 999), Clamp(fields.nanosecond, 0, 999)))
  }

  /** Regulating twice is regulating once. */
  lemma RegulateTimeIdempotent(fields: Time, overflow: Overflow)
    requires RegulateTime(fields, overflow).Ok?
    ensures RegulateTime(RegulateTime(fields, overflow).value, overflow) == RegulateTime(fields, overflow)
  {
  }

  /** The time fields a partial time-like object supplies; the rest are undefined. */
  datatype PartialTime = PartialTime(
    hour: Option<int>, minute: Option<int>, second: Option<int>,
    millisecond: Option<int>, microsecond: Option<int>, nanosecond: Option<int>)

  /**
   * The argument of with: a non-object, or an object described by whether it is
   * itself a Temporal value with a calendar, whether it has `calendar` or
   * `timeZone` properties, and the outcome of ToPartialTime on it.
   */
  datatype TimeLike = TimeLikeNotObject | TimeLikeObject(
    isCalendarType: bool, hasCalendar: bool, hasTimeZone: bool, partial: Result<PartialTime>)

  function OrElse(field: Option<int>, current: int): int
  {
    if field.Some? then field.value else current
  }

  /** Each field from the partial time when present, from the receiver otherwise. */
  function MergedFields(t: ValidTime, p: PartialTime): Time
  {
    Time(OrElse(p.hour, t.hour), OrElse(p.minute, t.minute), OrElse(p.second, t.second),
      OrElse(p.millisecond, t.millisecond), OrElse(p.microsecond, t.microsecond), OrElse(p.nanosecond, t.nanosecond))
  }

  /** The fields a partial time leaves undefined keep the receiver's values. */
  predicate KeepsAbsentFields(t: ValidTime, p: PartialTime, r: ValidTime)
  {
    && (p.hour.None? ==> r.hour == t.hour) && (p.minute.None? ==> r.minute == t.minute)
    && (p.second.None? ==> r.second == t.second) && (p.millisecond.None? ==> r.millisecond == t.millisecond)
    && (p.microsecond.None? ==> r.microsecond == t.microsecond) && (p.nanosecond.None? ==> r.nanosecond == t.nanosecond)
  }

  /**
   * with: a non-object, a Temporal value carrying a calendar, or an object with a
   * `calendar` or `timeZone` property is a TypeError; otherwise the fields are
   * merged with the receiver's and regulated with the overflow option.
   */
  function With(t: ValidTime, like: TimeLike, options: OptionsArg): (r: Result<ValidTime>)
    ensures like.TimeLikeNotObject? ==> r == Err(TypeError)
    ensures like.TimeLikeObject? && (like.isCalendarType || like.hasCalendar || like.hasTimeZone) ==> r == Err(TypeError)
    ensures r.Ok? ==> like.TimeLikeObject? && like.partial.Ok? && KeepsAbsentFields(t, like.partial.value, r.value)
    ensures r.Ok? && options.OptionsObject? && options.options.overflow == OverflowGiven(Reject) ==>
              r.value == MergedFields(t, like.partial.value)
    ensures r.Ok? && IsValidTime(MergedFields(t, like.partial.value)) ==> r.value == MergedFields(t, like.partial.value)
    ensures (like.TimeLikeObject? && !like.isCalendarType && !like.hasCalendar && !like.hasTimeZone && like.partial.Ok?
             && options.OptionsUndefined?) ==> r.Ok?
    ensures r.Ok? ==> GetOptionsObject(options).Ok? && ToOverflow(GetOptionsObject(options).value.overflow).Ok?
    ensures r.Ok? ==> r == RegulateTime(MergedFields(t, like.partial.value), ToOverflow(GetOptionsObject(options).value.overflow).value)
    ensures like.TimeLikeObject? && !like.isCalendarType && !like.hasCalendar && !like.hasTimeZone ==>
              && (like.partial.Err? ==> r == Err(like.partial.error))
              && (like.partial.Ok? && options.OptionsOther? ==> r == Err(TypeError))
              && (like.partial.Ok? && options.OptionsObject? && options.options.overflow.OverflowUnrecognized? ==> r == Err(RangeError))
              && (like.partial.Ok? && GetOptionsObject(options).Ok? && ToOverflow(GetOptionsObject(options).value.overflow) == Ok(Constrain) ==> r.Ok?)
  {
    match like
    case TimeLikeNotObject => Err(TypeError)
    case TimeLikeObject(isCalendarType, hasCalendar, hasTimeZone, partial) =>
      if isCalendarType || hasCalendar || hasTimeZone then Err(TypeError)
      else
        match partial
        case Err(e) => Err(e)
        case Ok(p) =>
          match GetOptionsObject(options)
          case Err(e) => Err(e)
          case Ok(opts) =>
            match ToOverflow(opts.overflow)
            case Err(e) => Err(e)
            case Ok(overflow) => RegulateTime(MergedFields(t, p), overflow)
  }

  /** A partial time that gives every field yields exactly those fields when they form a valid time. */
  lemma WithAllFields(t: ValidTime, u: ValidTime, options: OptionsArg)
    requires GetOptionsObject(options).Ok? && ToOverflow(GetOptionsObject(options).value.overflow).Ok?
    ensures With(t, TimeLikeObject(false, false, false, Ok(PartialTime(Some(u.hour), Some(u.minute), Some(u.second),
              Some(u.millisecond), Some(u.microsecond), Some(u.nanosecond)))), options) == Ok(u)
  {
  }

  /** The helpers of TemporalUtil that until, since and round call; they are not part of this model. */
  datatype TimeHelpers = TimeHelpers(
    differenceTime: (ValidTime, ValidTime) -> DurationRecord,
    roundDuration: (DurationRecord, int, Unit, RoundingMode) -> DurationRecord,
    balanceDuration: (DurationRecord, Unit) -> DurationRecord,
    roundTime: (ValidTime, int, Unit, RoundingMode) -> ValidTime)

  const UNTIL: int := 1
  const SINCE: int := -1

  /** The until/since result of a successful difference, negated for since. */
  function Negated(r: Result<DurationRecord>): Result<DurationRecord>
  {
    if r.Ok? then Ok(Scaled(r.value, -1)) else r
  }

  /**
   * until (sign 1) and since (sign -1): the other time converts first (its error
   * propagates), the options come next, since negates the rounding mode, and
   * every field of the balanced result is multiplied by the sign.
   */
  function DifferenceTemporalPlainTime(sign: int, t: ValidTime, other: Result<ValidTime>, options: OptionsArg, h: TimeHelpers): (r: Result<DurationRecord>)
    requires sign == UNTIL || sign == SINCE
    ensures other.Err? ==> r == Err(other.error)
    ensures other.Ok? && options.OptionsOther? ==> r == Err(TypeError)
    ensures r.Ok? ==> r.value.years == 0 && r.value.months == 0 && r.value.weeks == 0 && r.value.days == 0
    ensures r.Ok? <==> (other.Ok? && GetOptionsObject(options).Ok?
                        && GetDifferenceSettings(GetOptionsObject(options).value, YearMonthWeekDay, _ => Hour).Ok?)
    ensures other.Ok? && GetOptionsObject(options).Ok? ==>
              var s := GetDifferenceSettings(GetOptionsObject(options).value, YearMonthWeekDay, _ => Hour);
              s.Err? ==> r == Err(s.error)
    ensures r.Ok? && sign == UNTIL ==>
              var s := GetDifferenceSettings(GetOptionsObject(options).value, YearMonthWeekDay, _ => Hour).value;
              r.value == TimePart(h.balanceDuration(TimePart(h.roundDuration(TimePart(h.differenceTime(t, other.value)),
                                                                             s.roundingIncrement, s.smallestUnit, s.roundingMode)),
                                                    s.largestUnit))
  {
    match other
    case Err(e) => Err(e)
    case Ok(o) =>
      match GetOptionsObject(options)
      case Err(e) => Err(e)
      case Ok(opts) =>
        match GetDifferenceSettings(opts, YearMonthWeekDay, _ => Hour)
        case Err(e) => Err(e)
        case Ok(s) =>
          var mode := if sign == SINCE then NegateRoundingMode(s.roundingMode) else s.roundingMode;
          var result := h.differenceTime(t, o);
          var result2 := h.roundDuration(TimePart(result), s.roundingIncrement, s.smallestUnit, mode);
          var result3 := h.balanceDuration(TimePart(result2), s.largestUnit);
          Ok(Scaled(TimePart(result3), sign))
  }

  /**
   * since is until with the opposite rounding mode, negated: the two differ in
   * nothing else, errors included.
   */
  lemma SinceIsNegatedUntil(t: ValidTime, other: Result<ValidTime>, options: Options, h: TimeHelpers)
    ensures DifferenceTemporalPlainTime(SINCE, t, other, OptionsObject(options), h)
         == Negated(DifferenceTemporalPlainTime(UNTIL, t, other, OptionsObject(options.(roundingMode := NegatedModeOption(options.roundingMode))), h))
  {
    var f := _ => Hour;
    SettingsWithNegatedMode(options, YearMonthWeekDay, f);
    var s := GetDifferenceSettings(options, YearMonthWeekDay, f);
    if other.Ok? && s.Ok? {
      NegateRoundingModeInvolution(s.value.roundingMode);
    }
  }

  /** The largest increment round admits: 24 for hours, 60 for minutes and seconds, 1000 below. */
  function PlainTimeRoundingMaximum(u: Unit): (r: int)
    ensures !IsDateUnit(u) ==> MaximumDurationRoundingIncrement(u) == Some(r)
  {
    if u == Hour then 24
    else if u == Minute || u == Second then 60
    else 1000
  }

  /**
   * round: undefined and non-object arguments are TypeErrors, a missing
   * smallestUnit a RangeError; the increment must divide the unit's maximum and
   * lie below it.
   */
  function RoundPlainTime(t: ValidTime, roundTo: RoundToArg, h: TimeHelpers): (r: Result<ValidTime>)
    ensures roundTo.RoundToUndefined? || roundTo.RoundToOther? ==> r == Err(TypeError)
    ensures roundTo.RoundToObject? && roundTo.options.smallestUnit.UnitAbsent? ==> r == Err(RangeError)
    ensures GetRoundSettings(roundTo, YearMonthWeekDay).Err? ==> r == Err(GetRoundSettings(roundTo, YearMonthWeekDay).error)
    ensures GetRoundSettings(roundTo, YearMonthWeekDay).Ok? ==>
              var s := GetRoundSettings(roundTo, YearMonthWeekDay).value;
              var inc := if s.options.roundingIncrement.Some? then s.options.roundingIncrement.value else 1;
              var max := PlainTimeRoundingMaximum(s.smallestUnit);
              && (r.Ok? <==> 1 <= inc < max && max % inc == 0)
              && (r.Err? ==> r.error == RangeError)
              && (r.Ok? ==> r.value == h.roundTime(t, inc, s.smallestUnit, s.roundingMode))
  {
    match GetRoundSettings(roundTo, YearMonthWeekDay)
    case Err(e) => Err(e)
    case Ok(s) =>
      match ToRoundingIncrement(s.options.roundingIncrement, Some(PlainTimeRoundingMaximum(s.smallestUnit)), false)
      case Err(e) => Err(e)
      case Ok(inc) => Ok(h.roundTime(t, inc, s.smallestUnit, s.roundingMode))
  }

  /** A string argument is read as the smallest unit, with every other option at its default. */
  lemma RoundStringIsSmallestUnit(t: ValidTime, u: UnitOption, h: TimeHelpers)
    ensures RoundPlainTime(t, RoundToString(u), h) == RoundPlainTime(t, RoundToObject(NoOptions.(smallestUnit := u)), h)
  {
  }

  /** equals compares the six fields one by one. */
  function EqualsIntl(a: ValidTime, b: ValidTime): (r: bool)
    ensures r <==> a == b
  {
    if a.hour != b.hour then false
    else if a.minute != b.minute then false
    else if a.second != b.second then false
    else if a.millisecond != b.millisecond then false
    else if a.microsecond != b.microsecond then false
    else a.nanosecond == b.nanosecond
  }

  /**
   * The argument of toZonedDateTime: a non-object, or an object whose
   * `plainDate` and `timeZone` properties are undefined or the outcome of
   * converting them.
   */
  datatype ZonedItem = ItemNotObject | ItemObject(plainDate: Option<Result<PlainDate>>, timeZone: Option<Result<TimeZone>>)

  /**
   * toZonedDateTime: the item must be an object with a `plainDate` and a
   * `timeZone` (TypeError otherwise); the date and this time, read in that zone,
   * give the exact time, and the date's calendar is kept.
   */
  function ToZonedDateTime(t: ValidTime, item: ZonedItem, zones: TimeZoneMethods): (r: Result<ZonedDateTime>)
    ensures item.ItemNotObject? ==> r == Err(TypeError)
    ensures item.ItemObject? && item.plainDate.None? ==> r == Err(TypeError)
    ensures item.ItemObject? && item.plainDate.Some? && item.plainDate.value.Ok? && item.timeZone.None? ==> r == Err(TypeError)
    ensures r.Ok? ==> item.ItemObject? && item.plainDate.Some? && item.plainDate.value.Ok? && item.timeZone.Some? && item.timeZone.value.Ok?
    ensures r.Ok? ==> r.value.calendar == item.plainDate.value.value.calendar && r.value.timeZone == item.timeZone.value.value
    ensures r.Ok? ==> r.value.epochNs == zones.instantFor(r.value.timeZone, DateTime(item.plainDate.value.value.date, t))
  {
    match item
    case ItemNotObject => Err(TypeError)
    case ItemObject(plainDate, timeZone) =>
      if plainDate.None? then Err(TypeError)
      else
        match plainDate.value
        case Err(e) => Err(e)
        case Ok(date) =>
          if timeZone.None? then Err(TypeError)
          else
            match timeZone.value
            case Err(e) => Err(e)
            case Ok(zone) =>
              Ok(ZonedDateTime(zones.instantFor(zone, DateTime(date.date, t)), zone, date.calendar))
  }

  /** In a fixed-offset zone the new ZonedDateTime reads back as the given date and this time. */
  lemma ToZonedDateTimeReadsBack(t: ValidTime, item: ZonedItem, zones: TimeZoneMethods)
    requires HonoursFixedOffsets(zones)
    requires ToZonedDateTime(t, item, zones).Ok? && ToZonedDateTime(t, item, zones).value.timeZone.FixedOffset?
    ensures var z := ToZonedDateTime(t, item, zones).value;
            zones.plainDateTimeFor(z.timeZone, z.epochNs) == DateTime(item.plainDate.value.value.date, t)
  {
    var z := ToZonedDateTime(t, item, zones).value;
    FixedOffsetRoundTrip(z.timeZone.offsetNs, z.epochNs, DateTime(item.plainDate.value.value.date, t));
  }
}
