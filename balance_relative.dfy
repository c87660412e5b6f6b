/**
 * BalanceDurationRelative: folds the days of a duration into weeks, months or
 * years by stepping an anchor date one calendar unit at a time, as the loops of
 * TemporalBalanceDurationRelativeNode do.
 *
 * The calendar of the anchor may be user code, so its dateAdd and dateUntil
 * methods are parameters. The loops end only when every step moves the anchor
 * in the direction of the duration's sign; StepsHaveSign and YearsHaveMonths
 * state that demand, and CalendarBuiltins proves the first of the ISO calendar.
 */
module BalanceRelative {
  import opened Wrappers
  import opened JavaArith
  import opened IsoDate
  import opened Duration

  /** The `dateAdd` and `dateUntil` methods of the anchor's calendar. */
  datatype CalendarMethods = CalendarMethods(
    /** dateAdd(date, duration of years, months and weeks), options undefined */
    dateAdd: (ValidDate, int, int, int) -> ValidDate,
    /** the months field of dateUntil(one, two, { largestUnit: "month" }) */
    monthsUntil: (ValidDate, ValidDate) -> int)

  /** The one-unit durations oneYear, oneMonth and oneWeek, each carrying the sign. */
  datatype StepUnit = OneYear | OneMonth | OneWeek

  /** `sign` × `x` for a sign of 1 or -1, written without multiplication. */
  function Times(sign: int, x: int): int
  {
    if sign < 0 then -x else x
  }

  /** The anchor one unit further on, in the direction of `sign`. */
  function StepTo(cal: CalendarMethods, d: ValidDate, unit: StepUnit, sign: int): ValidDate
  {
    match unit
    case OneYear => cal.dateAdd(d, sign, 0, 0)
    case OneMonth => cal.dateAdd(d, 0, sign, 0)
    case OneWeek => cal.dateAdd(d, 0, 0, sign)
  }

  /**
   * MoveRelativeDate for one calendar and one signed unit, as two functions of the
   * anchor: the anchor one unit on, and the number of days it lies after the old one.
   */
  datatype Move = Move(next: ValidDate -> ValidDate, days: ValidDate -> int)

  function MoveRelativeDate(cal: CalendarMethods, unit: StepUnit, sign: int): Move
  {
    Move((d: ValidDate) => StepTo(cal, d, unit, sign),
         (d: ValidDate) => EpochDays(StepTo(cal, d, unit, sign)) - EpochDays(d))
  }

  /** `m` behaves as MoveRelativeDate(cal, unit, sign) on every anchor. */
  ghost predicate IsMove(m: Move, cal: CalendarMethods, unit: StepUnit, sign: int)
  {
    forall d: ValidDate :: m.next(d) == StepTo(cal, d, unit, sign) && m.days(d) == EpochDays(m.next(d)) - EpochDays(d)
  }

  lemma MoveRelativeDateIsMove(cal: CalendarMethods, unit: StepUnit, sign: int)
    ensures IsMove(MoveRelativeDate(cal, unit, sign), cal, unit, sign)
  {
  }

  /** Every step of `m` is a non-empty move in the direction of `sign`. */
  ghost predicate MovesWithSign(m: Move, sign: int)
  {
    forall d: ValidDate :: Times(sign, m.days(d)) > 0
  }

  /** Every one-unit step of this calendar is a non-empty move in the direction of `sign`. */
  ghost predicate StepsHaveSign(cal: CalendarMethods, unit: StepUnit, sign: int)
  {
    MovesWithSign(MoveRelativeDate(cal, unit, sign), sign)
  }

  /** The months in one year from `d`, as the calendar's dateUntil reports them. */
  function YearMonths(yearMove: Move, monthsUntil: (ValidDate, ValidDate) -> int, d: ValidDate): int
  {
    monthsUntil(d, yearMove.next(d))
  }

  /** Every year of `yearMove` holds a non-zero number of months of the same sign. */
  ghost predicate YearsWithSign(yearMove: Move, monthsUntil: (ValidDate, ValidDate) -> int, sign: int)
  {
    forall d: ValidDate :: Times(sign, YearMonths(yearMove, monthsUntil, d)) > 0
  }

  ghost predicate YearsHaveMonths(cal: CalendarMethods, sign: int)
  {
    YearsWithSign(MoveRelativeDate(cal, OneYear, sign), cal.monthsUntil, sign)
  }

  /** What the loops of one direction rely on. */
  ghost predicate WellBehavedWithSign(cal: CalendarMethods, sign: int)
  {
    && StepsHaveSign(cal, OneYear, sign) && StepsHaveSign(cal, OneMonth, sign)
    && StepsHaveSign(cal, OneWeek, sign) && YearsHaveMonths(cal, sign)
  }

  /** What the loops rely on, for both directions. */
  ghost predicate WellBehaved(cal: CalendarMethods)
  {
    forall sign | sign == 1 || sign == -1 :: WellBehavedWithSign(cal, sign)
  }

  /** The moves of a well-behaved calendar go in the direction of the sign. */
  lemma WellBehavedMoves(cal: CalendarMethods, sign: int, year: Move, month: Move, week: Move)
    requires WellBehavedWithSign(cal, sign) && (sign == 1 || sign == -1)
    requires year == MoveRelativeDate(cal, OneYear, sign)
    requires month == MoveRelativeDate(cal, OneMonth, sign)
    requires week == MoveRelativeDate(cal, OneWeek, sign)
    ensures MovesWithSign(year, sign) && MovesWithSign(month, sign) && MovesWithSign(week, sign)
    ensures YearsWithSign(year, cal.monthsUntil, sign)
  {
    assert WellBehavedWithSign(cal, sign);
  }

  /** The anchor after `k` steps from `d`. */
  function AnchorAfter(m: Move, d: ValidDate, k: nat): ValidDate
    decreases k
  {
    if k == 0 then d else m.next(AnchorAfter(m, d, k - 1))
  }

  /** The days of the first `k` steps from `d`, added up. */
  function DaysOfSteps(m: Move, d: ValidDate, k: nat): int
    decreases k
  {
    if k == 0 then 0 else DaysOfSteps(m, d, k - 1) + m.days(AnchorAfter(m, d, k - 1))
  }

  /** The months of the first `k` years from `d`, added up. */
  function MonthsOfYears(yearMove: Move, monthsUntil: (ValidDate, ValidDate) -> int, d: ValidDate, k: nat): int
    decreases k
  {
    if k == 0 then 0
    else MonthsOfYears(yearMove, monthsUntil, d, k - 1) + YearMonths(yearMove, monthsUntil, AnchorAfter(yearMove, d, k - 1))
  }

  /** The days folded by `k` steps are exactly the distance from the first anchor to the last. */
  lemma {:induction false} DaysOfStepsIsDistance(m: Move, cal: CalendarMethods, unit: StepUnit, sign: int, d: ValidDate, k: nat)
    requires IsMove(m, cal, unit, sign)
    ensures DaysOfSteps(m, d, k) == EpochDays(AnchorAfter(m, d, k)) - EpochDays(d)
    decreases k
  {
    if k > 0 {
      var a := AnchorAfter(m, d, k - 1);
      DaysOfStepsIsDistance(m, cal, unit, sign, d, k - 1);
      assert m.days(a) == EpochDays(m.next(a)) - EpochDays(a);
    }
  }

  /** With well-signed steps, `k` steps cover at least `k` days in the direction of the sign. */
  lemma {:induction false} DaysOfStepsGrow(m: Move, sign: int, d: ValidDate, k: nat)
    requires MovesWithSign(m, sign)
    ensures Times(sign, DaysOfSteps(m, d, k)) >= k
    decreases k
  {
    if k > 0 {
      DaysOfStepsGrow(m, sign, d, k - 1);
      assert Times(sign, m.days(AnchorAfter(m, d, k - 1))) > 0;
    }
  }

  /** After `j` steps the days left from `days0` still cover the next step, so the loop takes it. */
  predicate CoversStep(m: Move, d: ValidDate, days0: int, j: nat)
  {
    Abs(days0 - DaysOfSteps(m, d, j)) >= Abs(m.days(AnchorAfter(m, d, j)))
  }

  /**
   * One of the day-folding loops: while the remaining days cover the next step,
   * subtract that step's days, count one unit and move the anchor on.
   * On exit `k` steps were taken, every one of them was covered when taken, the
   * days they cover are gone from `days`, the remainder is shorter than the next
   * step, and `anchor` is one step past the last counted one (the source keeps
   * the pending step's anchor).
   */
  method FoldDaysIntoUnit(m: Move, sign: int, count0: int, days0: int, anchor0: ValidDate)
    returns (count: int, days: int, anchor: ValidDate, ghost k: nat)
    requires sign == 1 || sign == -1
    requires Times(sign, days0) >= 0
    requires MovesWithSign(m, sign)
    ensures count == count0 + Times(sign, k)
    ensures days == days0 - DaysOfSteps(m, anchor0, k)
    ensures Times(sign, days) >= 0
    ensures Abs(days) < Abs(m.days(AnchorAfter(m, anchor0, k)))
    ensures forall j :: 0 <= j < k ==> CoversStep(m, anchor0, days0, j)
    ensures anchor == AnchorAfter(m, anchor0, k + 1)
  {
    anchor := m.next(anchor0);
    var stepDays := m.days(anchor0);
    count, days, k := count0, days0, 0;
    while Abs(days) >= Abs(stepDays)
      invariant count == count0 + Times(sign, k)
      invariant days == days0 - DaysOfSteps(m, anchor0, k)
      invariant Times(sign, days) >= 0
      invariant anchor == AnchorAfter(m, anchor0, k + 1)
      invariant stepDays == m.days(AnchorAfter(m, anchor0, k))
      invariant forall j :: 0 <= j < k ==> CoversStep(m, anchor0, days0, j)
      decreases Abs(days)
    {
      assert Times(sign, stepDays) > 0;
      assert CoversStep(m, anchor0, days0, k);
      days := days - stepDays;
      count := count + sign;
      stepDays := m.days(anchor);
      anchor := m.next(anchor);
      k := k + 1;
    }
  }

  /**
   * The last loop of the year mode: while the remaining months cover the months of
   * the next year, subtract them, count one year and move the anchor a year on.
   */
  method FoldMonthsIntoYears(yearMove: Move, monthsUntil: (ValidDate, ValidDate) -> int, sign: int,
                             years0: int, months0: int, anchor0: ValidDate)
    returns (years: int, months: int, ghost k: nat)
    requires sign == 1 || sign == -1
    requires Times(sign, months0) >= 0
    requires YearsWithSign(yearMove, monthsUntil, sign)
    ensures years == years0 + Times(sign, k)
    ensures months == months0 - MonthsOfYears(yearMove, monthsUntil, anchor0, k)
    ensures Times(sign, months) >= 0
    ensures Abs(months) < Abs(YearMonths(yearMove, monthsUntil, AnchorAfter(yearMove, anchor0, k)))
  {
    var relativeTo := anchor0;
    var newRelativeTo := yearMove.next(relativeTo);
    var oneYearMonths := monthsUntil(relativeTo, newRelativeTo);
    years, months, k := years0, months0, 0;
    while Abs(months) >= Abs(oneYearMonths)
      invariant years == years0 + Times(sign, k)
      invariant months == months0 - MonthsOfYears(yearMove, monthsUntil, anchor0, k)
      invariant Times(sign, months) >= 0
      invariant relativeTo == AnchorAfter(yearMove, anchor0, k)
      invariant newRelativeTo == yearMove.next(relativeTo)
      invariant oneYearMonths == YearMonths(yearMove, monthsUntil, relativeTo)
      decreases Abs(months)
    {
      assert Times(sign, oneYearMonths) > 0;
      months := months - oneYearMonths;
      years := years + sign;
      relativeTo := newRelativeTo;
      newRelativeTo := yearMove.next(relativeTo);
      oneYearMonths := monthsUntil(relativeTo, newRelativeTo);
      k := k + 1;
    }
  }

  /** A non-zero duration without mixed signs has sign 1 or -1, and every field agrees with it. */
  lemma DateFieldsHaveSign(years: int, months: int, weeks: int, days: int)
    requires SameSigns([years, months, weeks, days])
    requires years != 0 || months != 0 || weeks != 0 || days != 0
    ensures var sign := FirstNonZeroSign([years, months, weeks, days]);
            && (sign == 1 || sign == -1)
            && Times(sign, years) >= 0 && Times(sign, months) >= 0
            && Times(sign, weeks) >= 0 && Times(sign, days) >= 0
  {
    var fields := [years, months, weeks, days];
    assert fields[0] == years && fields[1] == months && fields[2] == weeks && fields[3] == days;
    SignAgreesWithFields(fields);
  }

  /** Fields that all agree with one sign do not mix signs. */
  lemma AgreeingFieldsHaveSameSigns(sign: int, years: int, months: int, weeks: int, days: int)
    requires sign == 1 || sign == -1
    requires Times(sign, years) >= 0 && Times(sign, months) >= 0
    requires Times(sign, weeks) >= 0 && Times(sign, days) >= 0
    ensures SameSigns([years, months, weeks, days])
  {
    var fields := [years, months, weeks, days];
    if sign == 1 {
      assert forall i :: 0 <= i < 4 ==> fields[i] >= 0;
    } else {
      assert forall i :: 0 <= i < 4 ==> fields[i] <= 0;
    }
  }

  /** The calendar fields with the time fields zero, as every path returns them. */
  function DateDuration(years: int, months: int, weeks: int, days: int): DurationRecord
  {
    DurationRecord(years, months, weeks, days, 0, 0, 0, 0, 0, 0)
  }

  predicate TimeIsZero(r: DurationRecord)
  {
    r.hours == 0 && r.minutes == 0 && r.seconds == 0 &&
    r.milliseconds == 0 && r.microseconds == 0 && r.nanoseconds == 0
  }

  /** The calendar fields of `d` agree with `sign`, and its days are no more than `days0`. */
  predicate FieldsAgree(sign: int, d: DurationRecord, days0: int)
  {
    && Times(sign, d.years) >= 0 && Times(sign, d.months) >= 0
    && Times(sign, d.weeks) >= 0 && Times(sign, d.days) >= 0
    && Abs(d.days) <= Abs(days0)
  }

  /** Week mode: days fold into weeks; years and months are untouched. */
  method GetUnitWeek(week: Move, years: int, months: int, weeks0: int, days0: int, sign: int, relativeTo: ValidDate)
    returns (r: DurationRecord, ghost k: nat)
    requires sign == 1 || sign == -1
    requires Times(sign, years) >= 0 && Times(sign, months) >= 0 && Times(sign, weeks0) >= 0 && Times(sign, days0) >= 0
    requires MovesWithSign(week, sign)
    ensures r.years == years && r.months == months && TimeIsZero(r)
    ensures r.weeks == weeks0 + Times(sign, k)
    ensures r.days + DaysOfSteps(week, relativeTo, k) == days0
    ensures Abs(r.days) < Abs(week.days(AnchorAfter(week, relativeTo, k)))
    ensures FieldsAgree(sign, r, days0)
  {
    var weeks, days, anchor;
    weeks, days, anchor, k := FoldDaysIntoUnit(week, sign, weeks0, days0, relativeTo);
    r := DateDuration(years, months, weeks, days);
    DaysOfStepsGrow(week, sign, relativeTo, k);
  }

  /** Month mode: days fold into months; years and weeks are untouched. */
  method GetUnitMonth(month: Move, years: int, months0: int, weeks: int, days0: int, sign: int, relativeTo: ValidDate)
    returns (r: DurationRecord, ghost k: nat)
    requires sign == 1 || sign == -1
    requires Times(sign, years) >= 0 && Times(sign, months0) >= 0 && Times(sign, weeks) >= 0 && Times(sign, days0) >= 0
    requires MovesWithSign(month, sign)
    ensures r.years == years && r.weeks == weeks && TimeIsZero(r)
    ensures r.months == months0 + Times(sign, k)
    ensures r.days + DaysOfSteps(month, relativeTo, k) == days0
    ensures Abs(r.days) < Abs(month.days(AnchorAfter(month, relativeTo, k)))
    ensures FieldsAgree(sign, r, days0)
  {
    var months, days, anchor;
    months, days, anchor, k := FoldDaysIntoUnit(month, sign, months0, days0, relativeTo);
    r := DateDuration(years, months, weeks, days);
    DaysOfStepsGrow(month, sign, relativeTo, k);
  }

  /**
   * Year mode: days fold into years, the rest into months, and then months fold
   * into years using the calendar's count of months per year; weeks are untouched.
   * `ky` years come from days, `km` months from days and `kr` years from months;
   * `yearEnd` is the anchor where the month loop starts and `monthsFrom` the one
   * where the month-to-year loop starts.
   */
  method GetUnitYear(year: Move, month: Move, monthsUntil: (ValidDate, ValidDate) -> int,
                     years0: int, months0: int, weeks: int, days0: int, sign: int, relativeTo: ValidDate)
    returns (r: DurationRecord, ghost ky: nat, ghost km: nat, ghost kr: nat, ghost yearEnd: ValidDate, ghost monthsFrom: ValidDate)
    requires sign == 1 || sign == -1
    requires Times(sign, years0) >= 0 && Times(sign, months0) >= 0 && Times(sign, weeks) >= 0 && Times(sign, days0) >= 0
    requires MovesWithSign(year, sign) && MovesWithSign(month, sign) && YearsWithSign(year, monthsUntil, sign)
    ensures r.weeks == weeks && TimeIsZero(r)
    ensures r.years == years0 + Times(sign, ky) + Times(sign, kr)
    ensures yearEnd == AnchorAfter(year, relativeTo, ky + 1)
    ensures Times(sign, days0 - DaysOfSteps(year, relativeTo, ky)) >= 0
    ensures Abs(days0 - DaysOfSteps(year, relativeTo, ky)) < Abs(year.days(AnchorAfter(year, relativeTo, ky)))
    ensures r.days + DaysOfSteps(year, relativeTo, ky) + DaysOfSteps(month, yearEnd, km) == days0
    ensures Abs(r.days) < Abs(month.days(AnchorAfter(month, yearEnd, km)))
    ensures monthsFrom == AnchorAfter(month, yearEnd, km + 1)
    ensures r.months + MonthsOfYears(year, monthsUntil, monthsFrom, kr) == months0 + Times(sign, km)
    ensures Abs(r.months) < Abs(YearMonths(year, monthsUntil, AnchorAfter(year, monthsFrom, kr)))
    ensures FieldsAgree(sign, r, days0)
  {
    var years, days, months, anchor;
    years, days, anchor, ky := FoldDaysIntoUnit(year, sign, years0, days0, relativeTo);
    yearEnd := anchor;
    months, days, anchor, km := FoldDaysIntoUnit(month, sign, months0, days, anchor);
    monthsFrom := anchor;
    years, months, kr := FoldMonthsIntoYears(year, monthsUntil, sign, years, months, anchor);
    r := DateDuration(years, months, weeks, days);
    DaysOfStepsGrow(year, sign, relativeTo, ky);
    DaysOfStepsGrow(month, sign, yearEnd, km);
  }

  /**
   * What a balanced result keeps: no time part, no mixed signs, no more days than
   * before, and the fields above the largest unit untouched.
   */
  predicate BalancedDateFields(largestUnit: Unit, years: int, months: int, weeks: int, days: int, r: DurationRecord)
  {
    && TimeIsZero(r) && SameSigns([r.years, r.months, r.weeks, r.days])
    && Abs(r.days) <= Abs(days)
    && (largestUnit == Week ==> r.years == years && r.months == months)
    && (largestUnit == Month ==> r.years == years && r.weeks == weeks)
    && (largestUnit == Year ==> r.weeks == weeks)
  }

  /**
   * Week or month mode: some `k` steps of `m` from `relativeTo` moved their days
   * into the unit count, and the days left are fewer than the next step holds.
   */
  ghost predicate FoldedInto(m: Move, relativeTo: ValidDate, sign: int, count0: int, days0: int, count: int, days: int)
  {
    exists k: nat {:trigger DaysOfSteps(m, relativeTo, k)} ::
      && count == count0 + Times(sign, k)
      && days + DaysOfSteps(m, relativeTo, k) == days0
      && Abs(days) < Abs(m.days(AnchorAfter(m, relativeTo, k)))
  }

  lemma FoldedIntoByCount(m: Move, relativeTo: ValidDate, sign: int, count0: int, days0: int, count: int, days: int, k: nat)
    requires count == count0 + Times(sign, k)
    requires days + DaysOfSteps(m, relativeTo, k) == days0
    requires Abs(days) < Abs(m.days(AnchorAfter(m, relativeTo, k)))
    ensures FoldedInto(m, relativeTo, sign, count0, days0, count, days)
  {
  }

  /**
   * Year mode: `ky` years and then `km` months moved their days, the days left
   * after the years keep the sign and are fewer than the next year holds, the
   * days left after the months are fewer than the next month holds, and `kr` years of months moved from
   * months into years, leaving fewer months than the next year holds.
   */
  ghost predicate FoldedIntoYears(year: Move, month: Move, monthsUntil: (ValidDate, ValidDate) -> int, relativeTo: ValidDate,
                                  sign: int, years0: int, months0: int, days0: int, r: DurationRecord)
  {
    exists ky: nat, km: nat, kr: nat, yearEnd: ValidDate, monthsFrom: ValidDate
      {:trigger DaysOfSteps(year, relativeTo, ky), DaysOfSteps(month, yearEnd, km), MonthsOfYears(year, monthsUntil, monthsFrom, kr)} ::
      && yearEnd == AnchorAfter(year, relativeTo, ky + 1)
      && Times(sign, days0 - DaysOfSteps(year, relativeTo, ky)) >= 0
      && Abs(days0 - DaysOfSteps(year, relativeTo, ky)) < Abs(year.days(AnchorAfter(year, relativeTo, ky)))
      && monthsFrom == AnchorAfter(month, yearEnd, km + 1)
      && r.years == years0 + Times(sign, ky) + Times(sign, kr)
      && r.days + DaysOfSteps(year, relativeTo, ky) + DaysOfSteps(month, yearEnd, km) == days0
      && Abs(r.days) < Abs(month.days(AnchorAfter(month, yearEnd, km)))
      && r.months + MonthsOfYears(year, monthsUntil, monthsFrom, kr) == months0 + Times(sign, km)
      && Abs(r.months) < Abs(YearMonths(year, monthsUntil, AnchorAfter(year, monthsFrom, kr)))
  }

  lemma FoldedIntoYearsByCounts(year: Move, month: Move, monthsUntil: (ValidDate, ValidDate) -> int, relativeTo: ValidDate,
                                sign: int, years0: int, months0: int, days0: int, r: DurationRecord,
                                ky: nat, km: nat, kr: nat, yearEnd: ValidDate, monthsFrom: ValidDate)
    requires yearEnd == AnchorAfter(year, relativeTo, ky + 1)
    requires Times(sign, days0 - DaysOfSteps(year, relativeTo, ky)) >= 0
    requires Abs(days0 - DaysOfSteps(year, relativeTo, ky)) < Abs(year.days(AnchorAfter(year, relativeTo, ky)))
    requires monthsFrom == AnchorAfter(month, yearEnd, km + 1)
    requires r.years == years0 + Times(sign, ky) + Times(sign, kr)
    requires r.days + DaysOfSteps(year, relativeTo, ky) + DaysOfSteps(month, yearEnd, km) == days0
    requires Abs(r.days) < Abs(month.days(AnchorAfter(month, yearEnd, km)))
    requires r.months + MonthsOfYears(year, monthsUntil, monthsFrom, kr) == months0 + Times(sign, km)
    requires Abs(r.months) < Abs(YearMonths(year, monthsUntil, AnchorAfter(year, monthsFrom, kr)))
    ensures FoldedIntoYears(year, month, monthsUntil, relativeTo, sign, years0, months0, days0, r)
  {
  }

  /**
   * The balance facts of the largest unit, for moves that behave as
   * MoveRelativeDate of `cal` in the direction of `sign`.
   */
  ghost predicate FoldedForUnit(cal: CalendarMethods, relativeTo: ValidDate, sign: int, largestUnit: Unit,
                                years: int, months: int, weeks: int, days: int, r: DurationRecord)
  {
    exists year: Move, month: Move, week: Move
      {:trigger IsMove(year, cal, OneYear, sign), IsMove(month, cal, OneMonth, sign), IsMove(week, cal, OneWeek, sign)} ::
      && IsMove(year, cal, OneYear, sign) && IsMove(month, cal, OneMonth, sign) && IsMove(week, cal, OneWeek, sign)
      && (largestUnit == Week ==> FoldedInto(week, relativeTo, sign, weeks, days, r.weeks, r.days))
      && (largestUnit == Month ==> FoldedInto(month, relativeTo, sign, months, days, r.months, r.days))
      && (largestUnit == Year ==> FoldedIntoYears(year, month, cal.monthsUntil, relativeTo, sign, years, months, days, r))
  }

  lemma FoldedForUnitByMoves(cal: CalendarMethods, relativeTo: ValidDate, sign: int, largestUnit: Unit,
                             years: int, months: int, weeks: int, days: int, r: DurationRecord,
                             year: Move, month: Move, week: Move)
    requires IsMove(year, cal, OneYear, sign) && IsMove(month, cal, OneMonth, sign) && IsMove(week, cal, OneWeek, sign)
    requires largestUnit == Week ==> FoldedInto(week, relativeTo, sign, weeks, days, r.weeks, r.days)
    requires largestUnit == Month ==> FoldedInto(month, relativeTo, sign, months, days, r.months, r.days)
    requires largestUnit == Year ==> FoldedIntoYears(year, month, cal.monthsUntil, relativeTo, sign, years, months, days, r)
    ensures FoldedForUnit(cal, relativeTo, sign, largestUnit, years, months, weeks, days, r)
  {
  }

  /**
   * The dispatch of BalanceDurationRelative once the sign is known: `year`, `month`
   * and `week` are MoveRelativeDate for the calendar and that sign.
   */
  method BalanceInDirection(year: Move, month: Move, week: Move, monthsUntil: (ValidDate, ValidDate) -> int,
                            years: int, months: int, weeks: int, days: int, largestUnit: Unit, sign: int, relativeTo: ValidDate)
    returns (r: DurationRecord)
    requires largestUnit == Year || largestUnit == Month || largestUnit == Week
    requires sign == 1 || sign == -1
    requires Times(sign, years) >= 0 && Times(sign, months) >= 0 && Times(sign, weeks) >= 0 && Times(sign, days) >= 0
    requires MovesWithSign(year, sign) && MovesWithSign(month, sign) && MovesWithSign(week, sign)
    requires YearsWithSign(year, monthsUntil, sign)
    ensures FieldsAgree(sign, r, days)
    ensures BalancedDateFields(largestUnit, years, months, weeks, days, r)
    ensures largestUnit == Week ==> FoldedInto(week, relativeTo, sign, weeks, days, r.weeks, r.days)
    ensures largestUnit == Month ==> FoldedInto(month, relativeTo, sign, months, days, r.months, r.days)
    ensures largestUnit == Year ==> FoldedIntoYears(year, month, monthsUntil, relativeTo, sign, years, months, days, r)
  {
    ghost var k1: nat, k2: nat, k3: nat, yearEnd: ValidDate, from: ValidDate;
    if largestUnit == Year {
      r, k1, k2, k3, yearEnd, from := GetUnitYear(year, month, monthsUntil, years, months, weeks, days, sign, relativeTo);
      FoldedIntoYearsByCounts(year, month, monthsUntil, relativeTo, sign, years, months, days, r, k1, k2, k3, yearEnd, from);
    } else if largestUnit == Month {
      r, k1 := GetUnitMonth(month, years, months, weeks, days, sign, relativeTo);
      FoldedIntoByCount(month, relativeTo, sign, months, days, r.months, r.days, k1);
    } else {
      r, k1 := GetUnitWeek(week, years, months, weeks, days, sign, relativeTo);
      FoldedIntoByCount(week, relativeTo, sign, weeks, days, r.weeks, r.days, k1);
    }
    AgreeingFieldsHaveSameSigns(sign, r.years, r.months, r.weeks, r.days);
  }

  /** MoveRelativeDate for one year, one month and one week of `cal` in the direction of `sign`. */
  method MakeMoves(cal: CalendarMethods, sign: int) returns (year: Move, month: Move, week: Move)
    requires sign == 1 || sign == -1
    requires WellBehaved(cal)
    ensures IsMove(year, cal, OneYear, sign) && IsMove(month, cal, OneMonth, sign) && IsMove(week, cal, OneWeek, sign)
    ensures MovesWithSign(year, sign) && MovesWithSign(month, sign) && MovesWithSign(week, sign)
    ensures YearsWithSign(year, cal.monthsUntil, sign)
  {
    year, month, week := MoveRelativeDate(cal, OneYear, sign), MoveRelativeDate(cal, OneMonth, sign), MoveRelativeDate(cal, OneWeek, sign);
    assert WellBehavedWithSign(cal, sign);
    MoveRelativeDateIsMove(cal, OneYear, sign);
    MoveRelativeDateIsMove(cal, OneMonth, sign);
    MoveRelativeDateIsMove(cal, OneWeek, sign);
    WellBehavedMoves(cal, sign, year, month, week);
  }

  /**
   * BalanceDurationRelative on years, months, weeks and days. `relativeTo` is
   * None for undefined and otherwise the PlainDate it converts to; `cal` holds the
   * methods of that date's calendar.
   */
  method BalanceDurationRelative(years: int, months: int, weeks: int, days: int, largestUnit: Unit,
                                 relativeTo: Option<ValidDate>, cal: CalendarMethods)
    returns (r: Result<DurationRecord>)
    requires SameSigns([years, months, weeks, days])
    requires relativeTo.Some? ==> WellBehaved(cal)
    ensures r.Ok? ==> TimeIsZero(r.value)
    ensures (!(largestUnit == Year || largestUnit == Month || largestUnit == Week) || (years == 0 && months == 0 && weeks == 0 && days == 0))
            ==> r == Ok(DateDuration(years, months, weeks, days))
    ensures (largestUnit == Year || largestUnit == Month || largestUnit == Week) && (years != 0 || months != 0 || weeks != 0 || days != 0)
            ==> (r.Err? <==> relativeTo.None?) && (r.Err? ==> r.error == RangeError)
    ensures r.Ok? ==> SameSigns([r.value.years, r.value.months, r.value.weeks, r.value.days])
    ensures r.Ok? && largestUnit == Week ==> r.value.years == years && r.value.months == months
    ensures r.Ok? && largestUnit == Month ==> r.value.years == years && r.value.weeks == weeks
    ensures r.Ok? ==> r.value.weeks == weeks || largestUnit == Week
    ensures r.Ok? ==> Abs(r.value.days) <= Abs(days)
    ensures r.Ok? && relativeTo.Some? && (largestUnit == Year || largestUnit == Month || largestUnit == Week)
            && (years != 0 || months != 0 || weeks != 0 || days != 0) ==>
              FoldedForUnit(cal, relativeTo.value, FirstNonZeroSign([years, months, weeks, days]), largestUnit,
                            years, months, weeks, days, r.value)
  {
    if !(largestUnit == Year || largestUnit == Month || largestUnit == Week) || (years == 0 && months == 0 && weeks == 0 && days == 0) {
      r := Ok(DateDuration(years, months, weeks, days));
    } else if relativeTo.None? {
      r := Err(RangeError);
    } else {
      var sign := FirstNonZeroSign([years, months, weeks, days]);
      DateFieldsHaveSign(years, months, weeks, days);
      var year, month, week := MakeMoves(cal, sign);
      var d := BalanceInDirection(year, month, week, cal.monthsUntil, years, months, weeks, days, largestUnit, sign, relativeTo.value);
      FoldedForUnitByMoves(cal, relativeTo.value, sign, largestUnit, years, months, weeks, days, d, year, month, week);
      r := Ok(d);
    }
  }
}
