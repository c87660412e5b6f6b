/**
 * ToTemporalMonthDay: what a PlainMonthDay, another Temporal value, a property
 * bag or a string becomes when an operation needs a Temporal.PlainMonthDay. A
 * month-day is stored as an ISO date whose year is only a reference: 1972, a
 * leap year, unless a calendar chooses another.
 */
module ToTemporalMonthDay {
  import opened Wrappers
  import opened IsoDate
  import opened TemporalTypes
  import opened TemporalOptions
  import ToTemporalDate

  const REFERENCE_ISO_YEAR: int := 1972

  /** A Temporal.PlainMonthDay: an ISO date holding the reference year, and a calendar. */
  datatype PlainMonthDay = PlainMonthDay(isoDate: ValidDate, calendar: Calendar)

  /** CreateTemporalMonthDay: the ISO month and day must form a valid date in the reference year. */
  function CreateMonthDay(month: int, day: int, calendar: Calendar, referenceYear: int): (r: Result<PlainMonthDay>)
    ensures r.Ok? <==> IsValidDate(Date(referenceYear, month, day))
    ensures r.Ok? ==> r.value == PlainMonthDay(Date(referenceYear, month, day), calendar)
    ensures r.Err? ==> r.error == RangeError
  {
    var d := Date(referenceYear, month, day);
    if IsValidDate(d) then Ok(PlainMonthDay(d, calendar)) else Err(RangeError)
  }

  /** 1972 is a leap year, so every month-day that some year has, the reference year has. */
  lemma ReferenceYearHoldsEveryMonthDay(year: int, month: int, day: int)
    requires IsValidDate(Date(year, month, day))
    ensures IsValidDate(Date(REFERENCE_ISO_YEAR, month, day))
  {
    assert IsLeapYear(REFERENCE_ISO_YEAR);
  }

  /**
   * The argument: a PlainMonthDay; a PlainDate, PlainDateTime, PlainTime,
   * PlainYearMonth or ZonedDateTime (which carry a calendar); a property bag
   * (its `calendar` property, absent or resolved); or a primitive whose string
   * form was parsed as a month-day string. Objects carry the fields
   * prepareTemporalFields reads from them.
   */
  datatype MonthDayItem =
    | ItemPlainMonthDay(monthDay: PlainMonthDay)
    | ItemTemporalWithCalendar(calendar: Calendar, fields: DateFields)
    | ItemPropertyBag(calendarProperty: Option<Result<Calendar>>, fields: DateFields)
    | ItemString(parsed: Result<ParsedMonthDay>)

  /** A parsed month-day string: ISO month and day, the year if the string has one, and the calendar annotation. */
  datatype ParsedMonthDay = ParsedMonthDay(month: int, day: int, year: Option<int>, calendar: Option<Result<Calendar>>)

  /** The calendar's monthDayFromFields on a bag of fields; not described here. */
  type MonthDayFromFields = (Calendar, DateFields, Options) -> Result<PlainMonthDay>

  /** The calendar's monthDayFromFields on a PlainMonthDay with undefined options; not described here. */
  type MonthDayFromMonthDay = (Calendar, PlainMonthDay) -> Result<PlainMonthDay>

  /** Whether the bag's calendar counts as absent: only a bag whose `calendar` property is undefined. */
  function CalendarAbsent(item: MonthDayItem): (r: bool)
    ensures r <==> item.ItemPropertyBag? && item.calendarProperty.None?
  {
    item.ItemPropertyBag? && item.calendarProperty.None?
  }

  /**
   * The fields handed to monthDayFromFields: year becomes 1972 exactly when the
   * calendar is absent, month is present, and monthCode and year are both absent.
   */
  function WithReferenceYear(fields: DateFields, calendarAbsent: bool): (r: DateFields)
    ensures r.day == fields.day && r.month == fields.month && r.monthCode == fields.monthCode
    ensures fields.year.Some? ==> r.year == fields.year
    ensures r.year == Some(REFERENCE_ISO_YEAR) <==>
              (calendarAbsent && fields.month.Some? && fields.monthCode.None? && fields.year.None?) || fields.year == Some(REFERENCE_ISO_YEAR)
  {
    if calendarAbsent && fields.month.Some? && fields.monthCode.None? && fields.year.None? then
      fields.(year := Some(REFERENCE_ISO_YEAR))
    else fields
  }

  /**
   * toTemporalMonthDay: a PlainMonthDay is returned as it is; other objects go
   * to their calendar's monthDayFromFields, with the reference year added for a
   * bag without calendar, month code or year; a string reads the overflow option
   * before it is parsed, and is a month-day in 1972 when it has no year.
   */
  function ToTemporalMonthDay(item: MonthDayItem, options: Options, fromFields: MonthDayFromFields, fromMonthDay: MonthDayFromMonthDay): (r: Result<PlainMonthDay>)
    ensures item.ItemPlainMonthDay? ==> r == Ok(item.monthDay)
    ensures item.ItemTemporalWithCalendar? ==> r == fromFields(item.calendar, item.fields, options)
    ensures item.ItemPropertyBag? && r.Ok? ==>
              ToTemporalDate.CalendarWithISODefault(item.calendarProperty).Ok? &&
              r == fromFields(ToTemporalDate.CalendarWithISODefault(item.calendarProperty).value,
                                WithReferenceYear(item.fields, item.calendarProperty.None?), options)
    ensures item.ItemString? && options.overflow.OverflowUnrecognized? ==> r == Err(RangeError)
    ensures item.ItemString? && r.Ok? ==> item.parsed.Ok?
    ensures item.ItemString? && r.Ok? && item.parsed.value.year.None? ==>
              r.value.isoDate.year == REFERENCE_ISO_YEAR && r.value.isoDate.month == item.parsed.value.month
              && r.value.isoDate.day == item.parsed.value.day
    ensures item.ItemString? && r.Ok? && item.parsed.value.calendar.None? && item.parsed.value.year.None? ==>
              r.value.calendar == ISO8601
    ensures item.ItemString? && r.Ok? && item.parsed.value.year.Some? ==>
              var p := item.parsed.value;
              && ToTemporalDate.CalendarWithISODefault(p.calendar).Ok?
              && IsValidDate(Date(REFERENCE_ISO_YEAR, p.month, p.day))
              && r == fromMonthDay(ToTemporalDate.CalendarWithISODefault(p.calendar).value,
                                   PlainMonthDay(Date(REFERENCE_ISO_YEAR, p.month, p.day),
                                                 ToTemporalDate.CalendarWithISODefault(p.calendar).value))
  {
    match item
    case ItemPlainMonthDay(md) => Ok(md)
    case ItemTemporalWithCalendar(calendar, fields) =>
      fromFields(calendar, WithReferenceYear(fields, CalendarAbsent(item)), options)
    case ItemPropertyBag(calendarProperty, fields) =>
      (match ToTemporalDate.CalendarWithISODefault(calendarProperty)
       case Err(e) => Err(e)
       case Ok(calendar) => fromFields(calendar, WithReferenceYear(fields, CalendarAbsent(item)), options))
    case ItemString(parsed) =>
      if ToOverflow(options.overflow).Err? then Err(RangeError)
      else
        match parsed
        case Err(e) => Err(e)
        case Ok(p) =>
          match ToTemporalDate.CalendarWithISODefault(p.calendar)
          case Err(e) => Err(e)
          case Ok(calendar) =>
            match CreateMonthDay(p.month, p.day, calendar, REFERENCE_ISO_YEAR)
            case Err(e) => Err(e)
            case Ok(md) => if p.year.None? then Ok(md) else fromMonthDay(calendar, md)
  }

  /**
   * A month-day string without a year always converts when its month and day
   * exist in some year and the overflow option is valid: 1972 holds them all.
   */
  lemma YearlessStringConverts(month: int, day: int, someYear: int, options: Options, fromFields: MonthDayFromFields, fromMonthDay: MonthDayFromMonthDay)
    requires IsValidDate(Date(someYear, month, day))
    requires !options.overflow.OverflowUnrecognized?
    ensures ToTemporalMonthDay(ItemString(Ok(ParsedMonthDay(month, day, None, None))), options, fromFields, fromMonthDay)
         == Ok(PlainMonthDay(Date(REFERENCE_ISO_YEAR, month, day), ISO8601))
  {
    ReferenceYearHoldsEveryMonthDay(someYear, month, day);
  }

  /** February 29 written without a year converts, to 1972-02-29. */
  lemma LeapDayStringConverts(options: Options, fromFields: MonthDayFromFields, fromMonthDay: MonthDayFromMonthDay)
    requires !options.overflow.OverflowUnrecognized?
    ensures ToTemporalMonthDay(ItemString(Ok(ParsedMonthDay(2, 29, None, None))), options, fromFields, fromMonthDay).Ok?
  {
    YearlessStringConverts(2, 29, 2000, options, fromFields, fromMonthDay);
  }

  /** Converting a result again gives the same PlainMonthDay. */
  lemma ToTemporalMonthDayIdempotent(item: MonthDayItem, options: Options, options2: Options, fromFields: MonthDayFromFields, fromMonthDay: MonthDayFromMonthDay)
    requires ToTemporalMonthDay(item, options, fromFields, fromMonthDay).Ok?
    ensures var md := ToTemporalMonthDay(item, options, fromFields, fromMonthDay).value;
            ToTemporalMonthDay(ItemPlainMonthDay(md), options2, fromFields, fromMonthDay) == Ok(md)
  {
  }
}
