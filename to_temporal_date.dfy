/**
 * ToTemporalDate: what a PlainDate, a PlainDateTime, a ZonedDateTime, a property
 * bag or a string becomes when an operation needs a Temporal.PlainDate.
 */
module ToTemporalDate {
  import opened Wrappers
  import opened IsoDate
  import opened TemporalTypes
  import opened TemporalOptions
  import ZonedDateTimeBuiltins

  /** A calendar argument resolved with the ISO 8601 calendar as default: absent gives ISO 8601. */
  function CalendarWithISODefault(calendar: Option<Result<Calendar>>): (r: Result<Calendar>)
    ensures calendar.None? ==> r == Ok(ISO8601)
    ensures calendar.Some? ==> r == calendar.value
  {
    match calendar
    case None => Ok(ISO8601)
    case Some(c) => c
  }

  /**
   * The argument: one of the Temporal types, a property bag (its `calendar`
   * property, absent or resolved, and its date fields), or a primitive whose
   * string form was parsed as a date string.
   */
  datatype DateItem =
    | ItemPlainDate(plainDate: PlainDate)
    | ItemPlainDateTime(dateTime: DateTime, calendar: Calendar)
    | ItemZonedDateTime(zdt: ZonedDateTime)
    | ItemPropertyBag(calendarProperty: Option<Result<Calendar>>, fields: DateFields)
    | ItemString(parsed: Result<ParsedDate>)

  /** A parsed date string: a valid ISO date and the calendar annotation, if any, resolved. */
  datatype ParsedDate = ParsedDate(date: ValidDate, calendar: Option<Result<Calendar>>)

  /** The calendar's dateFromFields, which this model does not describe. */
  type DateFromFields = (Calendar, DateFields, Options) -> Result<PlainDate>

  /**
   * toTemporalDate: a PlainDate is returned as it is and its options are not
   * read; a ZonedDateTime, a PlainDateTime and a string validate the overflow
   * option first; a bag is handed to its calendar's dateFromFields.
   */
  function ToTemporalDate(item: DateItem, options: Options, zones: TimeZoneMethods, dateFromFields: DateFromFields): (r: Result<PlainDate>)
    ensures item.ItemPlainDate? ==> r == Ok(item.plainDate)
    ensures (item.ItemPlainDateTime? || item.ItemZonedDateTime? || item.ItemString?) && options.overflow.OverflowUnrecognized? ==>
              r == Err(RangeError)
    ensures item.ItemPlainDateTime? && r.Ok? ==> r.value == PlainDate(item.dateTime.date, item.calendar)
    ensures item.ItemPlainDateTime? && !options.overflow.OverflowUnrecognized? ==> r.Ok?
    ensures item.ItemZonedDateTime? && r.Ok? ==>
              r.value == PlainDate(zones.plainDateTimeFor(item.zdt.timeZone, item.zdt.epochNs).date, item.zdt.calendar)
    ensures item.ItemString? && r.Ok? ==> item.parsed.Ok? && r.value.date == item.parsed.value.date
    ensures item.ItemString? && r.Ok? && item.parsed.value.calendar.None? ==> r.value.calendar == ISO8601
    ensures item.ItemPropertyBag? && r.Ok? ==>
              CalendarWithISODefault(item.calendarProperty).Ok? &&
              dateFromFields(CalendarWithISODefault(item.calendarProperty).value, item.fields, options) == r
  {
    match item
    case ItemPlainDate(pd) => Ok(pd)
    case ItemZonedDateTime(z) =>
      if ToOverflow(options.overflow).Err? then Err(RangeError)
      else
        var dt := zones.plainDateTimeFor(z.timeZone, z.epochNs);
        Ok(PlainDate(dt.date, z.calendar))
    case ItemPlainDateTime(dt, calendar) =>
      if ToOverflow(options.overflow).Err? then Err(RangeError)
      else Ok(PlainDate(dt.date, calendar))
    case ItemPropertyBag(calendarProperty, fields) =>
      (match CalendarWithISODefault(calendarProperty)
       case Err(e) => Err(e)
       case Ok(calendar) => dateFromFields(calendar, fields, options))
    case ItemString(parsed) =>
      if ToOverflow(options.overflow).Err? then Err(RangeError)
      else
        match parsed
        case Err(e) => Err(e)
        case Ok(p) =>
          match CalendarWithISODefault(p.calendar)
          case Err(e) => Err(e)
          case Ok(calendar) => Ok(PlainDate(p.date, calendar))
  }

  /** A ZonedDateTime converts to the same PlainDate its toPlainDate gives. */
  lemma ZonedDateTimeAgreesWithToPlainDate(z: ZonedDateTime, options: Options, zones: TimeZoneMethods, dateFromFields: DateFromFields)
    requires !options.overflow.OverflowUnrecognized?
    ensures ToTemporalDate(ItemZonedDateTime(z), options, zones, dateFromFields) == Ok(ZonedDateTimeBuiltins.ToPlainDate(z, zones))
  {
  }

  /** Converting a result again gives the same PlainDate: the conversion is idempotent. */
  lemma ToTemporalDateIdempotent(item: DateItem, options: Options, options2: Options, zones: TimeZoneMethods, dateFromFields: DateFromFields)
    requires ToTemporalDate(item, options, zones, dateFromFields).Ok?
    ensures var pd := ToTemporalDate(item, options, zones, dateFromFields).value;
            ToTemporalDate(ItemPlainDate(pd), options2, zones, dateFromFields) == Ok(pd)
  {
  }
}
