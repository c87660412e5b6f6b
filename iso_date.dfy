/**
 * The proleptic Gregorian calendar of ISO 8601, as the Temporal builtins use it
 * through isISOLeapYear, isoDaysInMonth, toISODayOfWeek and addISODate.
 * Dates are counted in epoch days: day 0 is 1970-01-01.
 */
module IsoDate {
  import opened Wrappers

  datatype Date = Date(year: int, month: int, day: int)

  /** The `overflow` option: clamp out-of-range fields, or throw. */
  datatype Overflow = Constrain | Reject

  /** A year is a leap year when divisible by 4, except centuries not divisible by 400. */
  predicate IsLeapYear(y: int)
  {
    y % 4 == 0 && (y % 100 != 0 || y % 400 == 0)
  }

  function DaysInYear(y: int): int
  {
    if IsLeapYear(y) then 366 else 365
  }

  function DaysInMonth(y: int, m: int): (n: int)
    requires 1 <= m <= 12
    ensures 28 <= n <= 31
    ensures n == 29 <==> m == 2 && IsLeapYear(y)
  {
    if m == 2 then (if IsLeapYear(y) then 29 else 28)
    else if m == 4 || m == 6 || m == 9 || m == 11 then 30
    else 31
  }

  predicate IsValidDate(d: Date)
  {
    1 <= d.month <= 12 && 1 <= d.day <= DaysInMonth(d.year, d.month)
  }

  /** Days of year `y` that precede the first day of month `m`. */
  function DaysBeforeMonth(y: int, m: int): int
    requires 1 <= m <= 12
  {
    [0, 31, 59, 90, 120, 151, 181, 212, 243, 273, 304, 334][m - 1] + (if m > 2 && IsLeapYear(y) then 1 else 0)
  }

  /** Each month starts where the previous one ends, and December ends the year. */
  lemma DaysBeforeMonthSteps(y: int, m: int)
    requires 1 <= m <= 12
    ensures m == 1 ==> DaysBeforeMonth(y, m) == 0
    ensures m > 1 ==> DaysBeforeMonth(y, m) == DaysBeforeMonth(y, m - 1) + DaysInMonth(y, m - 1)
    ensures DaysBeforeMonth(y, m) + DaysInMonth(y, m) <= DaysInYear(y)
    ensures m == 12 ==> DaysBeforeMonth(y, m) + DaysInMonth(y, m) == DaysInYear(y)
  {
  }

  /** Days from 1970-01-01 to the first day of year `y`; negative before 1970. */
  function DaysBeforeYear(y: int): int
    decreases if y < 1970 then 1970 - y else y - 1970
  {
    if y == 1970 then 0
    else if y > 1970 then DaysBeforeYear(y - 1) + DaysInYear(y - 1)
    else DaysBeforeYear(y + 1) - DaysInYear(y)
  }

  /** Each year starts where the previous one ends. */
  lemma DaysBeforeNextYear(y: int)
    ensures DaysBeforeYear(y + 1) == DaysBeforeYear(y) + DaysInYear(y)
  {
  }

  /** Days from 1970-01-01 to `d`; negative before the epoch. */
  function EpochDays(d: Date): int
    requires 1 <= d.month <= 12
  {
    DaysBeforeYear(d.year) + DaysBeforeMonth(d.year, d.month) + d.day - 1
  }

  /** The ISO fields of a Temporal.PlainDate, which always form an existing date. */
  type ValidDate = d: Date | IsValidDate(d) witness Date(1970, 1, 1)

  /** The first day of the month after (y, m) lies one month length after the first day of (y, m). */
  lemma NextMonthStart(y: int, m: int)
    requires 1 <= m <= 12
    ensures var next := if m == 12 then Date(y + 1, 1, 1) else Date(y, m + 1, 1);
            EpochDays(next) == EpochDays(Date(y, m, 1)) + DaysInMonth(y, m)
  {
    if m == 12 {
      DaysBeforeNextYear(y);
      DaysBeforeMonthSteps(y, 12);
    }
  }

  /**
   * Normalises a day count that may run past either end of month (y, m) into a
   * valid date: day `d` of month (y, m) is the date `d - 1` days after its first day.
   */
  function BalanceDate(y: int, m: int, d: int): (r: Date)
    requires 1 <= m <= 12
    ensures IsValidDate(r)
    ensures EpochDays(r) == EpochDays(Date(y, m, 1)) + d - 1
    decreases (if d < 1 then 1 else 0), (if d < 1 then -d else d)
  {
    if d < 1 then
      var py := if m == 1 then y - 1 else y;
      var pm := if m == 1 then 12 else m - 1;
      NextMonthStart(py, pm);
      assert EpochDays(Date(py, pm, 1)) + DaysInMonth(py, pm) == EpochDays(Date(y, m, 1));
      BalanceDate(py, pm, d + DaysInMonth(py, pm))
    else if d > DaysInMonth(y, m) then
      var ny := if m == 12 then y + 1 else y;
      var nm := if m == 12 then 1 else m + 1;
      NextMonthStart(y, m);
      assert EpochDays(Date(ny, nm, 1)) == EpochDays(Date(y, m, 1)) + DaysInMonth(y, m);
      BalanceDate(ny, nm, d - DaysInMonth(y, m))
    else
      Date(y, m, d)
  }

  /** Month arithmetic: month numbers that run past December or before January carry into the year. */
  function BalanceYearMonth(y: int, m: int): (r: (int, int))
    ensures 1 <= r.1 <= 12
    ensures r.0 * 12 + r.1 == y * 12 + m
  {
    (y + (m - 1) / 12, (m - 1) % 12 + 1)
  }

  /** A value clamped into [lo, hi]. */
  function Clamp(x: int, lo: int, hi: int): (r: int)
    requires lo <= hi
    ensures lo <= r <= hi
    ensures lo <= x <= hi ==> r == x
    ensures x < lo ==> r == lo
    ensures x > hi ==> r == hi
  {
    if x < lo then lo else if x > hi then hi else x
  }

  /** RegulateISODate: clamp into range, or reject a date that does not exist. */
  function RegulateDate(y: int, m: int, d: int, overflow: Overflow): (r: Result<Date>)
    ensures r.Ok? ==> IsValidDate(r.value) && r.value.year == y
    ensures IsValidDate(Date(y, m, d)) ==> r == Ok(Date(y, m, d))
    ensures !IsValidDate(Date(y, m, d)) && overflow == Reject ==> r == Err(RangeError)
    ensures overflow == Constrain ==>
              r == Ok(Date(y, Clamp(m, 1, 12), Clamp(d, 1, DaysInMonth(y, Clamp(m, 1, 12)))))
  {
    match overflow
    case Reject =>
      if IsValidDate(Date(y, m, d)) then Ok(Date(y, m, d)) else Err(RangeError)
    case Constrain =>
      var cm := if m < 1 then 1 else if m > 12 then 12 else m;
      var dim := DaysInMonth(y, cm);
      Ok(Date(y, cm, if d < 1 then 1 else if d > dim then dim else d))
  }

  /**
   * AddISODate: add years and months first (regulating the day), then weeks and days.
   * Only the day can make the first step fail, and only under reject.
   */
  function AddISODate(date: Date, years: int, months: int, weeks: int, days: int, overflow: Overflow): (r: Result<Date>)
    requires IsValidDate(date)
    ensures r.Ok? ==> IsValidDate(r.value)
    ensures var ym := BalanceYearMonth(date.year + years, date.month + months);
            var mid := RegulateDate(ym.0, ym.1, date.day, overflow);
            && (r.Ok? <==> mid.Ok?)
            && (r.Ok? ==> EpochDays(r.value) == EpochDays(mid.value) + 7 * weeks + days)
            && (r.Err? <==> overflow == Reject && date.day > DaysInMonth(ym.0, ym.1))
            && (r.Err? ==> r.error == RangeError)
            && (weeks == 0 && days == 0 && r.Ok? ==> r.value == mid.value)
    ensures years == 0 && months == 0 ==> r.Ok? && EpochDays(r.value) == EpochDays(date) + 7 * weeks + days
    ensures overflow == Constrain ==> r.Ok?
  {
    var ym := BalanceYearMonth(date.year + years, date.month + months);
    assert years == 0 && months == 0 ==> ym == (date.year, date.month);
    match RegulateDate(ym.0, ym.1, date.day, overflow)
    case Err(e) => Err(e)
    case Ok(mid) => Ok(BalanceDate(mid.year, mid.month, mid.day + 7 * weeks + days))
  }

  /** ISO day of the week, Monday = 1 through Sunday = 7; 1970-01-01 was a Thursday. */
  function DayOfWeek(date: Date): (r: int)
    requires IsValidDate(date)
    ensures 1 <= r <= 7
  {
    (EpochDays(date) + 3) % 7 + 1
  }

  function DayOfYear(date: Date): (r: int)
    requires IsValidDate(date)
    ensures 1 <= r <= DaysInYear(date.year)
  {
    DaysBeforeMonthSteps(date.year, date.month);
    DaysBeforeMonth(date.year, date.month) + date.day
  }

  /**
   * ToISOWeekOfYear: weeks start on Monday and week 1 holds the year's first
   * Thursday; early January may fall in the last week of the previous year and
   * late December in week 1 of the next.
   */
  function WeekOfYear(date: Date): (r: int)
    requires IsValidDate(date)
    ensures 1 <= r <= 53
  {
    var dayOfYear := DayOfYear(date);
    var dayOfWeek := DayOfWeek(date);
    var week := (dayOfYear + 7 - dayOfWeek + 3) / 7;
    if week < 1 then
      var dayOfJan1st := DayOfWeek(Date(date.year, 1, 1));
      if dayOfJan1st == 5 then 53
      else if dayOfJan1st == 6 && IsLeapYear(date.year - 1) then 53
      else 52
    else if week == 53 && DaysInYear(date.year) - dayOfYear < 4 - dayOfWeek then 1
    else week
  }

  /** Adding one month (or minus one month) with constrain moves a date 28 to 31 days forward (backward). */
  lemma MonthStepSign(date: Date, s: int)
    requires IsValidDate(date) && (s == 1 || s == -1)
    ensures AddISODate(date, 0, s, 0, 0, Constrain).Ok?
    ensures var e := EpochDays(AddISODate(date, 0, s, 0, 0, Constrain).value) - EpochDays(date);
            28 <= s * e <= 31
  {
    var ym := BalanceYearMonth(date.year, date.month + s);
    if s == 1 {
      assert ym == if date.month == 12 then (date.year + 1, 1) else (date.year, date.month + 1);
      NextMonthStart(date.year, date.month);
    } else {
      assert ym == if date.month == 1 then (date.year - 1, 12) else (date.year, date.month - 1);
      NextMonthStart(ym.0, ym.1);
    }
  }

  /** The leap day shifts the start of a month by at most one day between two years. */
  lemma DaysBeforeMonthShift(y1: int, y2: int, m: int)
    requires 1 <= m <= 12
    ensures -1 <= DaysBeforeMonth(y1, m) - DaysBeforeMonth(y2, m) <= 1
  {
  }

  /** Adding whole years with constrain keeps the month and clamps the day to the target month's length. */
  lemma AddYearsClampsDay(date: Date, years: int)
    requires IsValidDate(date)
    ensures var dim := DaysInMonth(date.year + years, date.month);
            var day := if date.day > dim then dim else date.day;
            AddISODate(date, years, 0, 0, 0, Constrain) == Ok(Date(date.year + years, date.month, day))
  {
    var dim := DaysInMonth(date.year + years, date.month);
    var mid := Date(date.year + years, date.month, if date.day > dim then dim else date.day);
    assert BalanceYearMonth(date.year + years, date.month) == (date.year + years, date.month);
    assert RegulateDate(date.year + years, date.month, date.day, Constrain) == Ok(mid);
  }

  /** The epoch-day distance between a date and the same month `years` later, with its day clamped. */
  lemma YearStepDistance(date: Date, years: int)
    requires IsValidDate(date)
    ensures var dim := DaysInMonth(date.year + years, date.month);
            var day := if date.day > dim then dim else date.day;
            day >= date.day - 1 &&
            EpochDays(Date(date.year + years, date.month, day)) - EpochDays(date)
            == (DaysBeforeYear(date.year + years) - DaysBeforeYear(date.year))
               + (DaysBeforeMonth(date.year + years, date.month) - DaysBeforeMonth(date.year, date.month)) + (day - date.day)
  {
  }

  /** Adding one year (or minus one year) with constrain moves a date 365 or 366 days forward (backward). */
  lemma YearStepSign(date: Date, s: int)
    requires IsValidDate(date) && (s == 1 || s == -1)
    ensures AddISODate(date, s, 0, 0, 0, Constrain).Ok?
    ensures var e := EpochDays(AddISODate(date, s, 0, 0, 0, Constrain).value) - EpochDays(date);
            365 <= s * e <= 366
  {
    AddYearsClampsDay(date, s);
    YearStepDistance(date, s);
    DaysBeforeMonthShift(date.year + s, date.year, date.month);
    if s == 1 {
      DaysBeforeNextYear(date.year);
    } else {
      DaysBeforeNextYear(date.year - 1);
    }
  }
}
