/**
 * The methods of Temporal.Calendar.prototype for the built-in ISO 8601 calendar:
 * `fields`, `dateAdd`, `dateUntil` and the per-date getters.
 *
 * Arguments that are not already a PlainDate (or a PlainYearMonth where a getter
 * accepts one) go through ToTemporalDate; a `DateLike` carries the outcome of
 * that conversion, since the conversion itself is the ToTemporalDate module.
 */
module CalendarBuiltins {
  import opened Wrappers
  import opened JavaArith
  import opened IsoDate
  import opened Duration
  import opened BalanceRelative

  // ---------------------------------------------------------------------------
  // fields
  // ---------------------------------------------------------------------------

  /** A value produced by the iterator passed to `fields`. */
  datatype IteratorValue = StringValue(s: string) | NonString

  /** The property names a field list may hold. */
  predicate IsAllowedField(s: string)
  {
    s == "year" || s == "month" || s == "monthCode" || s == "day" || s == "hour" ||
    s == "minute" || s == "second" || s == "millisecond" || s == "microsecond" || s == "nanosecond"
  }

  /** Element `i` of `values` is a permitted name not seen before it. */
  predicate AcceptedAt(values: seq<IteratorValue>, i: int)
    requires 0 <= i < |values|
  {
    && values[i].StringValue?
    && IsAllowedField(values[i].s)
    && forall j :: 0 <= j < i ==> values[j] != values[i]
  }

  /** The error the rejected element `v` raises: TypeError for a non-string, RangeError for a bad name. */
  function RejectionOf(v: IteratorValue): ErrorKind
  {
    if v.NonString? then TypeError else RangeError
  }

  /**
   * Calendar.prototype.fields: drain the iterator, rejecting a non-string with
   * TypeError and a repeated or unknown name with RangeError; otherwise the names
   * come back in iteration order.
   */
  method Fields(values: seq<IteratorValue>) returns (r: Result<seq<string>>)
    ensures r.Ok? <==> forall i :: 0 <= i < |values| ==> AcceptedAt(values, i)
    ensures r.Ok? ==> |r.value| == |values| && forall i :: 0 <= i < |values| ==> values[i].StringValue? && r.value[i] == values[i].s
    ensures r.Err? ==> exists i :: 0 <= i < |values| && !AcceptedAt(values, i) &&
                                   (forall j :: 0 <= j < i ==> AcceptedAt(values, j)) &&
                                   r.error == RejectionOf(values[i])
  {
    var fieldNames: seq<string> := [];
    var n := 0;
    while n < |values|
      invariant 0 <= n <= |values|
      invariant forall j :: 0 <= j < n ==> AcceptedAt(values, j)
      invariant |fieldNames| == n && forall j :: 0 <= j < n ==> values[j] == StringValue(fieldNames[j])
    {
      var next := values[n];
      if next.NonString? {
        assert !AcceptedAt(values, n);
        return Err(TypeError);
      }
      var str := next.s;
      if str in fieldNames {
        ghost var j :| 0 <= j < n && fieldNames[j] == str;
        assert values[j] == values[n] && !AcceptedAt(values, n);
        return Err(RangeError);
      }
      if !IsAllowedField(str) {
        assert !AcceptedAt(values, n);
        return Err(RangeError);
      }
      assert AcceptedAt(values, n);
      fieldNames := fieldNames + [str];
      n := n + 1;
    }
    r := Ok(fieldNames);
  }

  // ---------------------------------------------------------------------------
  // dateAdd and dateUntil
  // ---------------------------------------------------------------------------

  /**
   * dtoiConstrain: a value that fits a Java int is kept; any other saturates to
   * Integer.MAX_VALUE or Integer.MIN_VALUE by its sign.
   */
  function DtoiConstrain(d: int): (r: int)
    ensures IsInt32(r)
    ensures IsInt32(d) ==> r == d
    ensures d > INT_MAX ==> r == INT_MAX
    ensures d < INT_MIN ==> r == INT_MIN
  {
    if IsInt32(d) then d else if d > 0 then INT_MAX else INT_MIN
  }

  /** Saturation keeps order: a larger value never constrains to a smaller int. */
  lemma DtoiConstrainMonotone(a: int, b: int)
    requires a <= b
    ensures DtoiConstrain(a) <= DtoiConstrain(b)
  {
  }

  const NS_PER_DAY: int := 86_400_000_000_000

  /** The duration's days through nanoseconds, as one count of nanoseconds. */
  function TimeAndDaysNanoseconds(d: DurationRecord): int
  {
    d.days * NS_PER_DAY + d.hours * 3_600_000_000_000 + d.minutes * 60_000_000_000 +
    d.seconds * 1_000_000_000 + d.milliseconds * 1_000_000 + d.microseconds * 1_000 + d.nanoseconds
  }

  /**
   * BalanceDuration with largest unit "day", days field only: the whole days in
   * days through nanoseconds, rounded toward zero.
   */
  function BalancedDays(d: DurationRecord): (r: int)
    ensures TimeIsZero(d) ==> r == d.days
  {
    TruncDiv(TimeAndDaysNanoseconds(d), NS_PER_DAY)
  }

  /** Less than a day of time, with the sign of the days, never changes the day count. */
  lemma BalancedDaysIgnoresPartialDay(d: DurationRecord, ns: int)
    requires d.hours == 0 && d.minutes == 0 && d.seconds == 0 && d.milliseconds == 0 && d.microseconds == 0
    requires d.nanoseconds == ns && 0 <= ns < NS_PER_DAY && d.days >= 0
    ensures BalancedDays(d) == d.days
  {
    assert TimeAndDaysNanoseconds(d) == d.days * NS_PER_DAY + ns;
  }

  /**
   * Calendar.prototype.dateAdd on the ISO calendar: the time part is balanced
   * into whole days, then years, months, weeks and days (each saturated to an
   * int) are added with the overflow option.
   */
  function DateAdd(date: ValidDate, duration: DurationRecord, overflow: Overflow): (r: Result<ValidDate>)
    ensures overflow == Constrain ==> r.Ok?
    ensures r.Err? ==> r.error == RangeError
    ensures duration.years == 0 && duration.months == 0 && IsInt32(duration.weeks) && IsInt32(BalancedDays(duration))
            ==> r.Ok? && EpochDays(r.value) == EpochDays(date) + 7 * duration.weeks + BalancedDays(duration)
    ensures var added := AddISODate(date, DtoiConstrain(duration.years), DtoiConstrain(duration.months),
                                    DtoiConstrain(duration.weeks), DtoiConstrain(BalancedDays(duration)), overflow);
            (r.Ok? <==> added.Ok?) && (r.Ok? ==> r.value == added.value)
    ensures IsInt32(duration.years) && IsInt32(duration.months) ==>
              var ym := BalanceYearMonth(date.year + duration.years, date.month + duration.months);
              (r.Err? <==> overflow == Reject && date.day > DaysInMonth(ym.0, ym.1))
  {
    var added := AddISODate(date, DtoiConstrain(duration.years), DtoiConstrain(duration.months),
                            DtoiConstrain(duration.weeks), DtoiConstrain(BalancedDays(duration)), overflow);
    match added
    case Ok(v) => Ok(v)
    case Err(e) => Err(RangeError)
  }

  /** dateAdd with options undefined (overflow "constrain"), which never throws. */
  function IsoDateAdd(date: ValidDate, years: int, months: int, weeks: int): ValidDate
  {
    DateAdd(date, DateDuration(years, months, weeks, 0), Constrain).value
  }

  /**
   * The ISO calendar's methods as BalanceDurationRelative calls them;
   * `monthsUntil` is the months field of its dateUntil, whose date difference is
   * not part of this model.
   */
  function IsoCalendar(monthsUntil: (ValidDate, ValidDate) -> int): CalendarMethods
  {
    CalendarMethods((d: ValidDate, y: int, m: int, w: int) => IsoDateAdd(d, y, m, w), monthsUntil)
  }

  /** One ISO step of a year, month or week moves the date strictly in the direction of the sign. */
  lemma IsoStepHasSign(d: ValidDate, unit: StepUnit, sign: int)
    requires sign == 1 || sign == -1
    ensures var e := EpochDays(StepTo(IsoCalendar((a: ValidDate, b: ValidDate) => 0), d, unit, sign)) - EpochDays(d);
            Times(sign, e) > 0
  {
    match unit
    case OneYear =>
      YearStepSign(d, sign);
      assert IsoDateAdd(d, sign, 0, 0) == AddISODate(d, sign, 0, 0, 0, Constrain).value;
    case OneMonth =>
      MonthStepSign(d, sign);
      assert IsoDateAdd(d, 0, sign, 0) == AddISODate(d, 0, sign, 0, 0, Constrain).value;
    case OneWeek =>
  }

  /**
   * Every one-unit step of the ISO calendar is a non-empty move with the sign of
   * the duration, so the folding loops of BalanceDurationRelative end on it.
   */
  lemma IsoStepsHaveSign(monthsUntil: (ValidDate, ValidDate) -> int, unit: StepUnit, sign: int)
    requires sign == 1 || sign == -1
    ensures StepsHaveSign(IsoCalendar(monthsUntil), unit, sign)
  {
    var cal := IsoCalendar(monthsUntil);
    var m := MoveRelativeDate(cal, unit, sign);
    forall d: ValidDate
      ensures Times(sign, m.days(d)) > 0
    {
      IsoStepHasSign(d, unit, sign);
      assert StepTo(cal, d, unit, sign) == StepTo(IsoCalendar((a: ValidDate, b: ValidDate) => 0), d, unit, sign);
    }
  }

  /**
   * The ISO calendar is well behaved when its dateUntil counts twelve months in
   * a year either way: then every step of a year, a month or a week moves the
   * anchor with the sign, and every year holds months of that sign.
   */
  lemma IsoCalendarWellBehaved(monthsUntil: (ValidDate, ValidDate) -> int)
    requires forall d: ValidDate :: monthsUntil(d, IsoDateAdd(d, 1, 0, 0)) == 12
    requires forall d: ValidDate :: monthsUntil(d, IsoDateAdd(d, -1, 0, 0)) == -12
    ensures WellBehaved(IsoCalendar(monthsUntil))
  {
    var cal := IsoCalendar(monthsUntil);
    forall sign | sign == 1 || sign == -1
      ensures WellBehavedWithSign(cal, sign)
    {
      IsoStepsHaveSign(monthsUntil, OneYear, sign);
      IsoStepsHaveSign(monthsUntil, OneMonth, sign);
      IsoStepsHaveSign(monthsUntil, OneWeek, sign);
      IsoYearsHaveMonths(monthsUntil, sign);
    }
  }

  /** Each ISO year step holds twelve months in its direction when dateUntil counts them so. */
  lemma IsoYearsHaveMonths(monthsUntil: (ValidDate, ValidDate) -> int, sign: int)
    requires sign == 1 || sign == -1
    requires forall d: ValidDate :: monthsUntil(d, IsoDateAdd(d, sign, 0, 0)) == 12 * sign
    ensures YearsHaveMonths(IsoCalendar(monthsUntil), sign)
  {
    var cal := IsoCalendar(monthsUntil);
    forall d: ValidDate
      ensures cal.monthsUntil(d, cal.dateAdd(d, sign, 0, 0)) == 12 * sign
    {
      assert cal.dateAdd(d, sign, 0, 0) == IsoDateAdd(d, sign, 0, 0);
    }
    TwelveMonthYearsHaveMonths(cal, sign);
  }

  /** A calendar whose dateUntil counts twelve months in each signed year step meets YearsHaveMonths. */
  lemma TwelveMonthYearsHaveMonths(cal: CalendarMethods, sign: int)
    requires sign == 1 || sign == -1
    requires forall d: ValidDate :: cal.monthsUntil(d, cal.dateAdd(d, sign, 0, 0)) == 12 * sign
    ensures YearsHaveMonths(cal, sign)
  {
    forall d: ValidDate
      ensures Times(sign, YearMonths(MoveRelativeDate(cal, OneYear, sign), cal.monthsUntil, d)) > 0
    {
      assert MoveRelativeDate(cal, OneYear, sign).next(d) == cal.dateAdd(d, sign, 0, 0);
    }
  }

  /** A date argument's largestUnit option: absent or "auto" mean "day", time units are refused. */
  function DateUntilLargestUnit(option: Option<Unit>): (r: Result<Unit>)
    ensures r.Ok? <==> option.None? || IsDateUnit(option.value)
    ensures r.Ok? ==> IsDateUnit(r.value)
    ensures option.None? ==> r == Ok(Day)
    ensures r.Err? ==> r.error == RangeError
  {
    match option
    case None => Ok(Day)
    case Some(u) => if IsDateUnit(u) then Ok(u) else Err(RangeError)
  }

  /**
   * Calendar.prototype.dateUntil: the ISO date difference in the largest unit
   * asked for; `difference` is DifferenceISODate, whose computation is not part
   * of this model. The time fields of the result are always zero.
   */
  function DateUntil(one: ValidDate, two: ValidDate, largestUnit: Option<Unit>,
                     difference: (ValidDate, ValidDate, Unit) -> DurationRecord): (r: Result<DurationRecord>)
    ensures r.Ok? <==> DateUntilLargestUnit(largestUnit).Ok?
    ensures r.Ok? ==> TimeIsZero(r.value)
    ensures r.Ok? ==> var diff := difference(one, two, DateUntilLargestUnit(largestUnit).value);
                      r.value.years == diff.years && r.value.months == diff.months &&
                      r.value.weeks == diff.weeks && r.value.days == diff.days
  {
    match DateUntilLargestUnit(largestUnit)
    case Err(e) => Err(e)
    case Ok(u) =>
      var diff := difference(one, two, u);
      Ok(DateDuration(diff.years, diff.months, diff.weeks, diff.days))
  }

  /**
   * A date difference that adds back: adding its fields to the first date, with
   * constrain, gives the second, for every largest unit.
   */
  ghost predicate AddsBack(difference: (ValidDate, ValidDate, Unit) -> DurationRecord)
  {
    forall one: ValidDate, two: ValidDate, u: Unit ::
      var diff := difference(one, two, u);
      AddISODate(one, diff.years, diff.months, diff.weeks, diff.days, Constrain) == Ok(two)
  }

  /**
   * dateUntil then dateAdd: when the date difference adds back and its fields fit
   * an int, adding the result of dateUntil to the first date gives the second.
   */
  lemma DateUntilThenDateAdd(one: ValidDate, two: ValidDate, largestUnit: Option<Unit>,
                             difference: (ValidDate, ValidDate, Unit) -> DurationRecord)
    requires AddsBack(difference)
    requires DateUntilLargestUnit(largestUnit).Ok?
    requires var diff := difference(one, two, DateUntilLargestUnit(largestUnit).value);
             IsInt32(diff.years) && IsInt32(diff.months) && IsInt32(diff.weeks) && IsInt32(diff.days)
    ensures DateUntil(one, two, largestUnit, difference).Ok?
    ensures DateAdd(one, DateUntil(one, two, largestUnit, difference).value, Constrain) == Ok(two)
  {
    var r := DateUntil(one, two, largestUnit, difference).value;
    var diff := difference(one, two, DateUntilLargestUnit(largestUnit).value);
    assert BalancedDays(r) == r.days;
  }

  // ---------------------------------------------------------------------------
  // Getters
  // ---------------------------------------------------------------------------

  /** A year and month that exist, as a PlainYearMonth holds them. */
  datatype YearMonth = YearMonth(year: int, month: int)
  type ValidYearMonth = ym: YearMonth | 1 <= ym.month <= 12 witness YearMonth(1970, 1)

  /**
   * The argument of a getter. `converted` is what ToTemporalDate makes of it when
   * the getter converts it: the date, or the error it throws.
   */
  datatype DateLike =
    | PlainDateArg(date: ValidDate)
    | PlainDateTimeArg(date: ValidDate)
    | PlainYearMonthArg(ym: ValidYearMonth, converted: Result<ValidDate>)
    | PlainMonthDayArg(converted: Result<ValidDate>)
    | OtherArg(converted: Result<ValidDate>)

  /** ToTemporalDate applied to the argument: PlainDate and PlainDateTime carry their own date. */
  function ToDate(arg: DateLike): (r: Result<ValidDate>)
    ensures arg.PlainDateArg? || arg.PlainDateTimeArg? ==> r == Ok(arg.date)
  {
    match arg
    case PlainDateArg(d) => Ok(d)
    case PlainDateTimeArg(d) => Ok(d)
    case PlainYearMonthArg(_, c) => c
    case PlainMonthDayArg(c) => c
    case OtherArg(c) => c
  }

  /** The year and month a getter reads: PlainDate and PlainYearMonth directly, anything else converted. */
  function YearMonthOf(arg: DateLike): (r: Result<ValidYearMonth>)
    ensures arg.PlainDateArg? ==> r == Ok(YearMonth(arg.date.year, arg.date.month))
    ensures arg.PlainYearMonthArg? ==> r == Ok(arg.ym)
    ensures !arg.PlainDateArg? && !arg.PlainYearMonthArg? ==> (r.Ok? <==> ToDate(arg).Ok?)
  {
    if arg.PlainYearMonthArg? then Ok(arg.ym)
    else match ToDate(arg)
      case Err(e) => Err(e)
      case Ok(d) => var ym: ValidYearMonth := YearMonth(d.year, d.month); Ok(ym)
  }

  /**
   * Calendar.prototype.month: a PlainMonthDay is refused with TypeError; the
   * Temporal types holding a month answer directly; anything else is converted.
   */
  function Month(arg: DateLike): (r: Result<int>)
    ensures arg.PlainMonthDayArg? ==> r == Err(TypeError)
    ensures arg.PlainDateArg? || arg.PlainDateTimeArg? ==> r == Ok(arg.date.month)
    ensures arg.PlainYearMonthArg? ==> r == Ok(arg.ym.month)
    ensures r.Ok? ==> 1 <= r.value <= 12
  {
    match arg
    case PlainMonthDayArg(_) => Err(TypeError)
    case PlainDateArg(d) => Ok(d.month)
    case PlainDateTimeArg(d) => Ok(d.month)
    case PlainYearMonthArg(ym, _) => Ok(ym.month)
    case OtherArg(c) =>
      match c
      case Err(e) => Err(e)
      case Ok(d) => Ok(d.month)
  }

  /** Calendar.prototype.daysInWeek: the argument is converted (and may throw), and the answer is 7. */
  function DaysInWeek(arg: DateLike): (r: Result<int>)
    ensures r.Ok? <==> ToDate(arg).Ok?
    ensures r.Ok? ==> r.value == 7
    ensures r.Err? ==> r.error == ToDate(arg).error
  {
    match ToDate(arg)
    case Err(e) => Err(e)
    case Ok(_) => Ok(7)
  }

  /** Calendar.prototype.monthsInYear: PlainDate and PlainYearMonth are not converted; the answer is 12. */
  function MonthsInYear(arg: DateLike): (r: Result<int>)
    ensures arg.PlainDateArg? || arg.PlainYearMonthArg? ==> r == Ok(12)
    ensures !arg.PlainDateArg? && !arg.PlainYearMonthArg? ==> (r.Ok? <==> ToDate(arg).Ok?)
    ensures r.Ok? ==> r.value == 12
  {
    if arg.PlainDateArg? || arg.PlainYearMonthArg? then Ok(12)
    else match ToDate(arg)
      case Err(e) => Err(e)
      case Ok(_) => Ok(12)
  }

  /** Calendar.prototype.daysInMonth. */
  function DaysInMonthOf(arg: DateLike): (r: Result<int>)
    ensures r.Ok? <==> YearMonthOf(arg).Ok?
    ensures r.Ok? ==> 28 <= r.value <= 31
    ensures r.Ok? ==> (r.value == 29 <==> YearMonthOf(arg).value.month == 2 && IsLeapYear(YearMonthOf(arg).value.year))
  {
    match YearMonthOf(arg)
    case Err(e) => Err(e)
    case Ok(ym) => Ok(DaysInMonth(ym.year, ym.month))
  }

  /** Calendar.prototype.daysInYear. */
  function DaysInYearOf(arg: DateLike): (r: Result<int>)
    ensures r.Ok? <==> YearMonthOf(arg).Ok?
    ensures r.Ok? ==> (r.value == 366 <==> IsLeapYear(YearMonthOf(arg).value.year))
    ensures r.Ok? ==> r.value == 365 || r.value == 366
  {
    match YearMonthOf(arg)
    case Err(e) => Err(e)
    case Ok(ym) => Ok(DaysInYear(ym.year))
  }

  /** Calendar.prototype.inLeapYear. */
  function InLeapYear(arg: DateLike): (r: Result<bool>)
    ensures r.Ok? <==> YearMonthOf(arg).Ok?
    ensures r.Ok? ==> (r.value <==> IsLeapYear(YearMonthOf(arg).value.year))
  {
    match YearMonthOf(arg)
    case Err(e) => Err(e)
    case Ok(ym) => Ok(IsLeapYear(ym.year))
  }

  /** The months of one year add up to the length of that year, as the getters report them. */
  lemma {:induction false} MonthsFillYear(y: int)
    ensures DaysBeforeMonth(y, 12) + DaysInMonth(y, 12) == DaysInYear(y)
    ensures forall m :: 1 <= m <= 12 ==> DaysBeforeMonth(y, m) + DaysInMonth(y, m) <= DaysInYear(y)
  {
    forall m | 1 <= m <= 12
      ensures DaysBeforeMonth(y, m) + DaysInMonth(y, m) <= DaysInYear(y)
    {
      DaysBeforeMonthSteps(y, m);
    }
    DaysBeforeMonthSteps(y, 12);
  }

  /** The getters agree: daysInYear is 366 exactly when inLeapYear holds, and then February has 29 days. */
  lemma GettersAgree(ym: ValidYearMonth)
    ensures var arg := PlainYearMonthArg(ym, Err(TypeError));
            && DaysInYearOf(arg) == Ok(if InLeapYear(arg).value then 366 else 365)
            && (InLeapYear(arg).value <==> DaysInMonthOf(PlainYearMonthArg(YearMonth(ym.year, 2), Err(TypeError))) == Ok(29))
  {
  }

  /** Calendar.prototype.dayOfWeek: ISO weekday of the converted date, Monday 1 to Sunday 7. */
  function DayOfWeekOf(arg: DateLike): (r: Result<int>)
    ensures r.Ok? <==> ToDate(arg).Ok?
    ensures r.Ok? ==> 1 <= r.value <= 7
  {
    match ToDate(arg)
    case Err(e) => Err(e)
    case Ok(d) => Ok(DayOfWeek(d))
  }

  /** The day after a date falls on the next weekday, Sunday wrapping to Monday. */
  lemma NextDayNextWeekday(d: ValidDate, next: ValidDate)
    requires EpochDays(next) == EpochDays(d) + 1
    ensures DayOfWeek(next) == (if DayOfWeek(d) == 7 then 1 else DayOfWeek(d) + 1)
  {
    var k := EpochDays(d) + 3;
    assert DayOfWeek(d) == k % 7 + 1;
    assert DayOfWeek(next) == (k + 1) % 7 + 1;
    SuccessorModSeven(k);
  }

  /** The remainder by 7 of a successor is the next remainder, 6 wrapping to 0. */
  lemma SuccessorModSeven(k: int)
    ensures (k + 1) % 7 == (if k % 7 == 6 then 0 else k % 7 + 1)
  {
    var q := k / 7;
    assert k == 7 * q + k % 7;
    if k % 7 == 6 {
      assert k + 1 == 7 * (q + 1);
    } else {
      assert k + 1 == 7 * q + (k % 7 + 1);
    }
  }

  /** Calendar.prototype.dayOfYear: ordinal of the converted date within its year. */
  function DayOfYearOf(arg: DateLike): (r: Result<int>)
    ensures r.Ok? <==> ToDate(arg).Ok?
    ensures r.Ok? ==> 1 <= r.value <= DaysInYear(ToDate(arg).value.year)
  {
    match ToDate(arg)
    case Err(e) => Err(e)
    case Ok(d) => Ok(DayOfYear(d))
  }

  /** The first of January is day 1 and each following day of the year counts one more. */
  lemma DayOfYearCounts(d: ValidDate)
    ensures d.month == 1 ==> DayOfYear(d) == d.day
    ensures DayOfYear(d) == EpochDays(d) - EpochDays(Date(d.year, 1, 1)) + 1
  {
  }
}
