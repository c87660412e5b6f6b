# Temporal, ArrayBuffer and interop cores of graal-js, modelled in Dafny

This project models the value logic of part of the graal-js JavaScript engine
and proves properties of that model.

- **Temporal prototype builtins.** These are `Temporal.Calendar`,
  `Temporal.PlainTime`, `Temporal.Instant` and `Temporal.ZonedDateTime`. They
  are modelled on the proleptic Gregorian calendar of ISO 8601.
- **`TemporalBalanceDurationRelativeNode`.** It balances a duration against a
  calendar by stepping an anchor date one year, month or week at a time.
- **`ToTemporalDateNode` and `ToTemporalMonthDayNode`.** They convert an
  argument into a `PlainDate` or a `PlainMonthDay`.
- **`ArrayBuffer.prototype.slice` and `ArrayBuffer.prototype.transfer`.** Also
  the byte-length and detached getters.
- **`JSInteropUtil`.**
  - `setArraySize`, which resizes a foreign array.
  - `keys`.
  - `formatError` and `formatSourceLocation`.

The modules, one per file:

- `Wrappers`: `Option`, and `Result` with the two error kinds the code throws
  (`TypeError`, `RangeError`).
- `JavaArith`: Java's truncating division of `BigInt`/`long` and the 32-bit
  range.
- `IsoDate`: ISO 8601 leap years, month lengths, epoch days, `balanceISODate`,
  `regulateISODate`, `addISODate`, day of week, day of year and week of year.
- `Duration`: the ten-field duration record, its sign, units, rounding modes,
  rounding-increment maxima and `toTemporalRoundingIncrement`.
- `TemporalOptions`: reading an options object.
  - `smallestUnit`, `largestUnit`, `roundingMode`, `overflow`.
  - The difference settings shared by `until`/`since`.
  - The `roundTo` argument of `round`.
- `TemporalTypes`: times of day and their nanosecond count, dates and epoch
  days, date-times and epoch nanoseconds.
  - Time zones are a record of two functions.
  - A fixed-offset zone is the concrete instance whose behaviour is proved.
- `CalendarBuiltins`: the ISO calendar's prototype methods.
- `BalanceRelative`: `balanceDurationRelative` and its three loops. They are
  imperative methods proved against specification functions: the sum of the
  step lengths and the anchor after `k` steps.
- `PlainTime`, `InstantBuiltins`, `ZonedDateTimeBuiltins`: the three value-type
  prototypes.
- `ToTemporalDate`, `ToTemporalMonthDay`: the two conversion nodes.
- `ArrayBufferBuiltins`: a class holding an `array<bv8>` and a detached flag,
  with slice, species construction and transfer as methods.
- `InteropUtil`: the foreign array is a class whose element list is a `seq`.
  `setArraySize` is proved against the planned sequence of remove or write
  operations. The error text is built by methods proved equal to string
  functions.

Some helpers live in `TemporalUtil`, which is not part of this model:
`roundTime`, `roundDuration`, `differenceInstant`, `differenceZonedDateTime`,
`addZonedDateTime`, `interpretTemporalDateTimeFields`,
`interpretISODateTimeOffset`, `dateFromFields` and `monthDayFromFields`.

- **How they are modelled.** They are fields of function-valued helper
  records passed as parameters. A builtin's contract says which helper it
  calls, with which arguments, and how the helper's value or error becomes the
  builtin's result. What a helper itself computes is not stated.
- **Concrete ISO arithmetic.** `addTime`, `regulateTime`, `addISODate`, `isoDaysInMonth`,
  `toISODayOfWeek` and the other ISO calendar arithmetic are given concrete
  definitions.

## Model

| member | source | states |
|---|---|---|
| JavaArith.TruncDiv | graal-js/src/com.oracle.truffle.js/src/com/oracle/truffle/js/builtins/temporal/TemporalZonedDateTimePrototypeBuiltins.java:396-400 | BigInt division rounds toward zero: for a non-negative dividend the remainder lies in [0, b), for a negative one in (-b, 0] |
| JavaArith.TruncDivOdd | graal-js/src/com.oracle.truffle.js/src/com/oracle/truffle/js/builtins/temporal/TemporalZonedDateTimePrototypeBuiltins.java:396-400 | truncating division commutes with negating the dividend |
| JavaArith.TruncDivNonNegative | graal-js/src/com.oracle.truffle.js/src/com/oracle/truffle/js/builtins/temporal/TemporalZonedDateTimePrototypeBuiltins.java:396-400 | on a non-negative dividend truncating and floor division agree |
| JavaArith.TruncDivDiffersFromEuclidean | graal-js/src/com.oracle.truffle.js/src/com/oracle/truffle/js/builtins/temporal/TemporalZonedDateTimePrototypeBuiltins.java:396-400 | one nanosecond before the epoch is microsecond 0, not -1: the two divisions differ on negative epochs |
| IsoDate.DaysInMonth | graal-js/src/com.oracle.truffle.js/src/com/oracle/truffle/js/builtins/temporal/TemporalCalendarPrototypeBuiltins.java:748-758 | a month has 28 to 31 days, and 29 exactly for February of a leap year |
| IsoDate.DaysBeforeMonthSteps | graal-js/src/com.oracle.truffle.js/src/com/oracle/truffle/js/builtins/temporal/TemporalCalendarPrototypeBuiltins.java:682-687 | the days before a month are those before the previous month plus its length, and the months fill the year exactly |
| IsoDate.BalanceDate | graal-js/src/com.oracle.truffle.js/src/com/oracle/truffle/js/builtins/temporal/TemporalCalendarPrototypeBuiltins.java:480-481 | balancing any day count gives a valid date exactly that many days after the first of the month, minus one |
| IsoDate.BalanceYearMonth | graal-js/src/com.oracle.truffle.js/src/com/oracle/truffle/js/builtins/temporal/TemporalCalendarPrototypeBuiltins.java:480-481 | the balanced month is in 1..12 and the total month count is preserved |
| IsoDate.RegulateDate | graal-js/src/com.oracle.truffle.js/src/com/oracle/truffle/js/builtins/temporal/TemporalCalendarPrototypeBuiltins.java:480-481 | a valid date is kept; reject turns an invalid one into RangeError; constrain clamps the month into 1..12 and then the day into that month |
| IsoDate.AddISODate | graal-js/src/com.oracle.truffle.js/src/com/oracle/truffle/js/builtins/temporal/TemporalCalendarPrototypeBuiltins.java:480-481 | years and months are balanced and the day regulated with the overflow, then 7·weeks + days epoch days are added; RangeError exactly when reject meets a day the target month lacks; constrain never fails |
| IsoDate.DayOfWeek | graal-js/src/com.oracle.truffle.js/src/com/oracle/truffle/js/builtins/temporal/TemporalCalendarPrototypeBuiltins.java:660-665 | the ISO weekday is in 1..7 |
| IsoDate.DayOfYear | graal-js/src/com.oracle.truffle.js/src/com/oracle/truffle/js/builtins/temporal/TemporalCalendarPrototypeBuiltins.java:682-687 | the ordinal day lies between 1 and the length of the year |
| IsoDate.WeekOfYear | graal-js/src/com.oracle.truffle.js/src/com/oracle/truffle/js/builtins/temporal/TemporalCalendarPrototypeBuiltins.java:704-710 | the ISO week number is in 1..53 |
| IsoDate.MonthStepSign | graal-js/src/com.oracle.truffle.js/src/com/oracle/truffle/js/nodes/temporal/TemporalBalanceDurationRelativeNode.java:181-197 | adding one month (or minus one) with constrain moves a date by 28 to 31 days in that direction |
| IsoDate.YearStepSign | graal-js/src/com.oracle.truffle.js/src/com/oracle/truffle/js/nodes/temporal/TemporalBalanceDurationRelativeNode.java:131-179 | adding one year (or minus one) with constrain moves a date by 365 or 366 days in that direction |
| Duration.FirstNonZeroSign | graal-js/src/com.oracle.truffle.js/src/com/oracle/truffle/js/nodes/temporal/TemporalBalanceDurationRelativeNode.java:111 | the duration sign is 0 iff every field is zero, and otherwise the sign of the first non-zero field |
| Duration.SignAgreesWithFields | graal-js/src/com.oracle.truffle.js/src/com/oracle/truffle/js/nodes/temporal/TemporalBalanceDurationRelativeNode.java:111 | for fields that do not mix signs, a positive sign means every field is non-negative and a negative sign every field is non-positive |
| Duration.Scaled | graal-js/src/com.oracle.truffle.js/src/com/oracle/truffle/js/builtins/temporal/TemporalZonedDateTimePrototypeBuiltins.java:695-699 | every one of the ten fields is multiplied by the factor |
| Duration.NegatedDuration | graal-js/src/com.oracle.truffle.js/src/com/oracle/truffle/js/builtins/temporal/TemporalZonedDateTimePrototypeBuiltins.java:883-885 | negating a duration negates its sign, and negating twice gives it back |
| Duration.TimePart | graal-js/src/com.oracle.truffle.js/src/com/oracle/truffle/js/builtins/temporal/TemporalPlainTimePrototypeBuiltins.java:300-302 | the result keeps the six time fields and has zero years, months, weeks and days |
| Duration.ScaledTimeFieldsNs | graal-js/src/com.oracle.truffle.js/src/com/oracle/truffle/js/builtins/temporal/TemporalInstantPrototypeBuiltins.java:228-231 | scaling by ±1 scales the duration's nanosecond total the same way |
| Duration.LargerOfTwoUnits | graal-js/src/com.oracle.truffle.js/src/com/oracle/truffle/js/builtins/temporal/TemporalInstantPrototypeBuiltins.java:294 | the result is one of the two units and is at least as large as both |
| Duration.NegateRoundingModeInvolution | graal-js/src/com.oracle.truffle.js/src/com/oracle/truffle/js/builtins/temporal/TemporalPlainTimePrototypeBuiltins.java:284-286 | negating a rounding mode twice is the identity; only ceil, floor, halfCeil and halfFloor change |
| Duration.MaximumDurationRoundingIncrement | graal-js/src/com.oracle.truffle.js/src/com/oracle/truffle/js/builtins/temporal/TemporalPlainTimePrototypeBuiltins.java:287 | there is no maximum exactly for the date units |
| Duration.ToRoundingIncrement | graal-js/src/com.oracle.truffle.js/src/com/oracle/truffle/js/builtins/temporal/TemporalPlainTimePrototypeBuiltins.java:288 | an accepted increment is at least 1, below or up to the maximum, and divides the dividend; absent means 1; below 1 is a RangeError |
| Duration.ValidateUnitRange | graal-js/src/com.oracle.truffle.js/src/com/oracle/truffle/js/builtins/temporal/TemporalPlainTimePrototypeBuiltins.java:282 | accepted iff the largest unit is at least as large as the smallest |
| TemporalOptions.GetOptionsObject | graal-js/src/com.oracle.truffle.js/src/com/oracle/truffle/js/builtins/temporal/TemporalPlainTimePrototypeBuiltins.java:279 | undefined gives empty options; a non-object is a TypeError, and only that fails |
| TemporalOptions.ToSmallestUnit | graal-js/src/com.oracle.truffle.js/src/com/oracle/truffle/js/builtins/temporal/TemporalPlainTimePrototypeBuiltins.java:280 | absent gives the fallback; a given unit is accepted iff not disallowed; otherwise RangeError |
| TemporalOptions.ToLargestUnit | graal-js/src/com.oracle.truffle.js/src/com/oracle/truffle/js/builtins/temporal/TemporalPlainTimePrototypeBuiltins.java:281 | absent or auto gives the auto value; a given unit is returned iff not disallowed, otherwise RangeError; an unknown string is a RangeError |
| TemporalOptions.ToRoundingMode | graal-js/src/com.oracle.truffle.js/src/com/oracle/truffle/js/builtins/temporal/TemporalPlainTimePrototypeBuiltins.java:283 | the given mode or the fallback; fails, with RangeError, exactly on an unknown mode |
| TemporalOptions.ToOverflow | graal-js/src/com.oracle.truffle.js/src/com/oracle/truffle/js/builtins/temporal/TemporalPlainTimePrototypeBuiltins.java:378 | absent is constrain and a given value is kept; fails, with RangeError, exactly on an unknown value |
| TemporalOptions.GetDifferenceSettings | graal-js/src/com.oracle.truffle.js/src/com/oracle/truffle/js/builtins/temporal/TemporalZonedDateTimePrototypeBuiltins.java:712-722 | largest unit at least the smallest; increment at least 1 and within the unit's maximum; defaults nanosecond, trunc and 1; errors are RangeErrors |
| TemporalOptions.SettingsWithNegatedMode | graal-js/src/com.oracle.truffle.js/src/com/oracle/truffle/js/builtins/temporal/TemporalZonedDateTimePrototypeBuiltins.java:857-858 | reading a negated rounding mode gives the same settings with the mode negated |
| TemporalOptions.ToDisambiguation | graal-js/src/com.oracle.truffle.js/src/com/oracle/truffle/js/builtins/temporal/TemporalZonedDateTimePrototypeBuiltins.java:550 | absent is compatible and a given value is kept; fails, with RangeError, exactly on an unknown value |
| TemporalOptions.ToOffsetOption | graal-js/src/com.oracle.truffle.js/src/com/oracle/truffle/js/builtins/temporal/TemporalZonedDateTimePrototypeBuiltins.java:551 | absent is the fallback and a given value is kept; fails, with RangeError, exactly on an unknown value |
| TemporalOptions.TimeLargestUnitMakesDateUnitsIrrelevant | graal-js/src/com.oracle.truffle.js/src/com/oracle/truffle/js/builtins/temporal/TemporalZonedDateTimePrototypeBuiltins.java:712-722 | with a time largestUnit, disallowing the date units changes neither the settings nor the error |
| TemporalOptions.RoundToOptions | graal-js/src/com.oracle.truffle.js/src/com/oracle/truffle/js/builtins/temporal/TemporalInstantPrototypeBuiltins.java:331-346 | undefined or a non-object, non-string roundTo is a TypeError; a string is taken as smallestUnit; an object is the options |
| TemporalOptions.GetRoundSettings | graal-js/src/com.oracle.truffle.js/src/com/oracle/truffle/js/builtins/temporal/TemporalInstantPrototypeBuiltins.java:331-347 | TypeError for undefined, RangeError for a missing smallestUnit; the unit is allowed and the mode defaults to halfExpand |
| TemporalTypes.TimeOfNsOfTime | graal-js/src/com.oracle.truffle.js/src/com/oracle/truffle/js/builtins/temporal/TemporalPlainTimePrototypeBuiltins.java:260-267 | a time of day converted to nanoseconds since midnight and back is the same time |
| TemporalTypes.TimeNsInjective | graal-js/src/com.oracle.truffle.js/src/com/oracle/truffle/js/builtins/temporal/TemporalPlainTimePrototypeBuiltins.java:561-581 | two valid times with the same nanosecond count are equal |
| TemporalTypes.DateOfEpochDays | graal-js/src/com.oracle.truffle.js/src/com/oracle/truffle/js/builtins/temporal/TemporalZonedDateTimePrototypeBuiltins.java:379 | every epoch-day count names a valid date with that count |
| TemporalTypes.EpochDaysInjective | graal-js/src/com.oracle.truffle.js/src/com/oracle/truffle/js/builtins/temporal/TemporalZonedDateTimePrototypeBuiltins.java:379 | two valid dates with the same epoch-day count are equal |
| TemporalTypes.DateOfEpochDaysOfDate | graal-js/src/com.oracle.truffle.js/src/com/oracle/truffle/js/builtins/temporal/TemporalZonedDateTimePrototypeBuiltins.java:379 | date to epoch days and back is the identity |
| TemporalTypes.DateTimeOfEpochNs | graal-js/src/com.oracle.truffle.js/src/com/oracle/truffle/js/builtins/temporal/TemporalZonedDateTimePrototypeBuiltins.java:379 | the date-time of an epoch nanosecond count has that count; its day is the floor of the count by a day |
| TemporalTypes.DateTimeOfEpochNsOf | graal-js/src/com.oracle.truffle.js/src/com/oracle/truffle/js/builtins/temporal/TemporalZonedDateTimePrototypeBuiltins.java:379 | date-time to epoch nanoseconds and back is the identity |
| TemporalTypes.FixedOffsetRoundTrip | graal-js/src/com.oracle.truffle.js/src/com/oracle/truffle/js/builtins/temporal/TemporalZonedDateTimePrototypeBuiltins.java:379-391 | in a fixed-offset zone, instant to local date-time and back is the identity in both directions |
| TemporalTypes.FixedOffsetDayLength | graal-js/src/com.oracle.truffle.js/src/com/oracle/truffle/js/builtins/temporal/TemporalZonedDateTimePrototypeBuiltins.java:384-392 | in a fixed-offset zone, consecutive midnights are exactly one day of nanoseconds apart |
| TemporalTypes.FixedOffsetReadsBack | graal-js/src/com.oracle.truffle.js/src/com/oracle/truffle/js/builtins/temporal/TemporalZonedDateTimePrototypeBuiltins.java:600 | a zone implementation that honours fixed offsets reads back the date-time it was given |
| CalendarBuiltins.Fields | graal-js/src/com.oracle.truffle.js/src/com/oracle/truffle/js/builtins/temporal/TemporalCalendarPrototypeBuiltins.java:320-348 | succeeds iff every element is a distinct allowed field name, and then returns them in order; otherwise the first rejected element gives TypeError (not a string) or RangeError (duplicate or unknown) |
| CalendarBuiltins.DtoiConstrain | graal-js/src/com.oracle.truffle.js/src/com/oracle/truffle/js/builtins/temporal/TemporalCalendarPrototypeBuiltins.java:488-494 | identity on 32-bit values; saturates to Integer.MAX_VALUE or MIN_VALUE otherwise |
| CalendarBuiltins.DtoiConstrainMonotone | graal-js/src/com.oracle.truffle.js/src/com/oracle/truffle/js/builtins/temporal/TemporalCalendarPrototypeBuiltins.java:488-494 | saturation keeps order |
| CalendarBuiltins.BalancedDays | graal-js/src/com.oracle.truffle.js/src/com/oracle/truffle/js/builtins/temporal/TemporalCalendarPrototypeBuiltins.java:479-482 | with zero time fields the balanced day count is the duration's days |
| CalendarBuiltins.DateAdd | graal-js/src/com.oracle.truffle.js/src/com/oracle/truffle/js/builtins/temporal/TemporalCalendarPrototypeBuiltins.java:466-485 | the result is addISODate of the saturated years, months and weeks and of the days with the time fields balanced in; for int-sized years and months, a RangeError exactly when reject meets a day the target month lacks |
| CalendarBuiltins.IsoStepsHaveSign | graal-js/src/com.oracle.truffle.js/src/com/oracle/truffle/js/builtins/temporal/TemporalCalendarPrototypeBuiltins.java:466-485 | every ISO one-year, one-month or one-week step moves the date a non-zero number of days with the step's sign |
| CalendarBuiltins.IsoCalendarWellBehaved | graal-js/src/com.oracle.truffle.js/src/com/oracle/truffle/js/nodes/temporal/TemporalBalanceDurationRelativeNode.java:111-116 | the ISO calendar meets the balancing requirement whenever its month count of one year is 12 forward and -12 backward |
| CalendarBuiltins.DateUntilLargestUnit | graal-js/src/com.oracle.truffle.js/src/com/oracle/truffle/js/builtins/temporal/TemporalCalendarPrototypeBuiltins.java:520 | absent means day; only date units are accepted; otherwise RangeError |
| CalendarBuiltins.DateUntil | graal-js/src/com.oracle.truffle.js/src/com/oracle/truffle/js/builtins/temporal/TemporalCalendarPrototypeBuiltins.java:511-528 | succeeds iff the largest unit is accepted; the six time fields are zero and the four date fields are those the date-difference parameter gives |
| CalendarBuiltins.DateUntilThenDateAdd | graal-js/src/com.oracle.truffle.js/src/com/oracle/truffle/js/builtins/temporal/TemporalCalendarPrototypeBuiltins.java:466-528 | when the date difference adds back with constrain and fits an int, dateAdd of dateUntil's result to the first date gives the second |
| CalendarBuiltins.ToDate | graal-js/src/com.oracle.truffle.js/src/com/oracle/truffle/js/builtins/temporal/TemporalCalendarPrototypeBuiltins.java:660-665 | a PlainDate or PlainDateTime argument is used as it is |
| CalendarBuiltins.YearMonthOf | graal-js/src/com.oracle.truffle.js/src/com/oracle/truffle/js/builtins/temporal/TemporalCalendarPrototypeBuiltins.java:748-758 | a PlainYearMonth and a PlainDate give their own year and month; anything else converts iff it converts to a date |
| CalendarBuiltins.Month | graal-js/src/com.oracle.truffle.js/src/com/oracle/truffle/js/builtins/temporal/TemporalCalendarPrototypeBuiltins.java:573-589 | a PlainMonthDay is a TypeError; dates and year-months give their month, always in 1..12 |
| CalendarBuiltins.DaysInWeek | graal-js/src/com.oracle.truffle.js/src/com/oracle/truffle/js/builtins/temporal/TemporalCalendarPrototypeBuiltins.java:726-731 | 7 whenever the argument converts to a date, and that conversion's error otherwise |
| CalendarBuiltins.MonthsInYear | graal-js/src/com.oracle.truffle.js/src/com/oracle/truffle/js/builtins/temporal/TemporalCalendarPrototypeBuiltins.java:805-812 | always 12; PlainDate and PlainYearMonth are not converted |
| CalendarBuiltins.DaysInMonthOf | graal-js/src/com.oracle.truffle.js/src/com/oracle/truffle/js/builtins/temporal/TemporalCalendarPrototypeBuiltins.java:748-758 | 28 to 31, and 29 iff the month is February of a leap year |
| CalendarBuiltins.DaysInYearOf | graal-js/src/com.oracle.truffle.js/src/com/oracle/truffle/js/builtins/temporal/TemporalCalendarPrototypeBuiltins.java:775-788 | 365 or 366, and 366 iff a leap year |
| CalendarBuiltins.InLeapYear | graal-js/src/com.oracle.truffle.js/src/com/oracle/truffle/js/builtins/temporal/TemporalCalendarPrototypeBuiltins.java:829-842 | true iff the argument's year is a leap year |
| CalendarBuiltins.MonthsFillYear | graal-js/src/com.oracle.truffle.js/src/com/oracle/truffle/js/builtins/temporal/TemporalCalendarPrototypeBuiltins.java:748-788 | the twelve month lengths add up to the year length, so every month fits within the year |
| CalendarBuiltins.GettersAgree | graal-js/src/com.oracle.truffle.js/src/com/oracle/truffle/js/builtins/temporal/TemporalCalendarPrototypeBuiltins.java:748-842 | for a year-month, daysInYear is 366 iff inLeapYear, and daysInMonth of February is 29 iff inLeapYear |
| CalendarBuiltins.DayOfWeekOf | graal-js/src/com.oracle.truffle.js/src/com/oracle/truffle/js/builtins/temporal/TemporalCalendarPrototypeBuiltins.java:660-665 | defined iff the argument converts to a date, and then in 1..7 |
| CalendarBuiltins.NextDayNextWeekday | graal-js/src/com.oracle.truffle.js/src/com/oracle/truffle/js/builtins/temporal/TemporalCalendarPrototypeBuiltins.java:660-665 | the day after has the next weekday, Sunday wrapping to Monday |
| CalendarBuiltins.DayOfYearOf | graal-js/src/com.oracle.truffle.js/src/com/oracle/truffle/js/builtins/temporal/TemporalCalendarPrototypeBuiltins.java:682-687 | defined iff the argument converts to a date, and then between 1 and the year length |
| CalendarBuiltins.DayOfYearCounts | graal-js/src/com.oracle.truffle.js/src/com/oracle/truffle/js/builtins/temporal/TemporalCalendarPrototypeBuiltins.java:682-687 | the day of the year is one more than the days since January 1 |
| BalanceRelative.MoveRelativeDateIsMove | graal-js/src/com.oracle.truffle.js/src/com/oracle/truffle/js/nodes/temporal/TemporalBalanceDurationRelativeNode.java:140-146 | moveRelativeDate's day count is the epoch-day distance to the date dateAdd gives |
| BalanceRelative.WellBehavedMoves | graal-js/src/com.oracle.truffle.js/src/com/oracle/truffle/js/nodes/temporal/TemporalBalanceDurationRelativeNode.java:111-116 | for a calendar whose steps carry the duration's sign, each unit's move has non-zero days of that sign, and one year has months of that sign |
| BalanceRelative.DaysOfStepsIsDistance | graal-js/src/com.oracle.truffle.js/src/com/oracle/truffle/js/nodes/temporal/TemporalBalanceDurationRelativeNode.java:140-155 | the day lengths of k steps add up to the distance from the first anchor to the k-th |
| BalanceRelative.DaysOfStepsGrow | graal-js/src/com.oracle.truffle.js/src/com/oracle/truffle/js/nodes/temporal/TemporalBalanceDurationRelativeNode.java:140-155 | k steps of a signed move cover at least k days in its direction, which is why every loop terminates |
| BalanceRelative.FoldDaysIntoUnit | graal-js/src/com.oracle.truffle.js/src/com/oracle/truffle/js/nodes/temporal/TemporalBalanceDurationRelativeNode.java:140-156 | after k steps the counter grew by sign·k and the days by minus the k step lengths, keeping their sign; the remaining days are shorter than the next step, and every step taken fitted |
| BalanceRelative.FoldMonthsIntoYears | graal-js/src/com.oracle.truffle.js/src/com/oracle/truffle/js/nodes/temporal/TemporalBalanceDurationRelativeNode.java:167-177 | after k years the years grew by sign·k and the months shrank by the month counts of those years; the rest is shorter than the next year |
| BalanceRelative.DateFieldsHaveSign | graal-js/src/com.oracle.truffle.js/src/com/oracle/truffle/js/nodes/temporal/TemporalBalanceDurationRelativeNode.java:111 | a non-zero duration without mixed signs has sign ±1, and every field agrees with it |
| BalanceRelative.AgreeingFieldsHaveSameSigns | graal-js/src/com.oracle.truffle.js/src/com/oracle/truffle/js/nodes/temporal/TemporalBalanceDurationRelativeNode.java:178 | fields that all agree with one sign do not mix signs |
| BalanceRelative.GetUnitWeek | graal-js/src/com.oracle.truffle.js/src/com/oracle/truffle/js/nodes/temporal/TemporalBalanceDurationRelativeNode.java:199-216 | years and months untouched, time zero, weeks grew by sign·k, days plus the k week lengths equal the original days, and the rest is shorter than the next week |
| BalanceRelative.GetUnitMonth | graal-js/src/com.oracle.truffle.js/src/com/oracle/truffle/js/nodes/temporal/TemporalBalanceDurationRelativeNode.java:181-197 | years and weeks untouched, time zero, months grew by sign·k, days conserved across the k month lengths, and the rest is shorter than the next month |
| BalanceRelative.GetUnitYear | graal-js/src/com.oracle.truffle.js/src/com/oracle/truffle/js/nodes/temporal/TemporalBalanceDurationRelativeNode.java:131-179 | weeks untouched and time zero; days conserved across the year steps and then the month steps; the days left after the year loop keep the sign and are fewer than the next year holds; months conserved across the years folded; each rest is shorter than its next step |
| BalanceRelative.BalanceInDirection | graal-js/src/com.oracle.truffle.js/src/com/oracle/truffle/js/nodes/temporal/TemporalBalanceDurationRelativeNode.java:117-128 | dispatches on the largest unit; the result agrees with the sign; for week or month, some k steps moved exactly their days into the unit and the days left are fewer than the next step holds; for year, the same for years (the days left after them keep the sign and are fewer than the next year holds) then months, and k years of months moved into years |
| BalanceRelative.MakeMoves | graal-js/src/com.oracle.truffle.js/src/com/oracle/truffle/js/nodes/temporal/TemporalBalanceDurationRelativeNode.java:111-116 | the three moves are moveRelativeDate of the calendar for year, month and week, each signed |
| BalanceRelative.BalanceDurationRelative | graal-js/src/com.oracle.truffle.js/src/com/oracle/truffle/js/nodes/temporal/TemporalBalanceDurationRelativeNode.java:91-129 | time fields zero; a day or smaller unit, or a zero date part, comes back unchanged; otherwise a missing relativeTo is exactly the RangeError case; the result does not mix signs, leaves fields above the largest unit unchanged and never grows the days; for a year, month or week largest unit there are moves that are moveRelativeDate of the calendar with the duration's sign, and the result folded whole steps of them into that unit with the days conserved and the rest shorter than the next step; for year that holds for the year loop, the month loop and the months-into-years loop each |
| PlainTime.AddDurationToOrSubtractDurationFromPlainTime | graal-js/src/com.oracle.truffle.js/src/com/oracle/truffle/js/builtins/temporal/TemporalPlainTimePrototypeBuiltins.java:255-272 | the new time is the old time plus or minus the duration's time fields, wrapped modulo one day |
| PlainTime.SubtractUndoesAdd | graal-js/src/com.oracle.truffle.js/src/com/oracle/truffle/js/builtins/temporal/TemporalPlainTimePrototypeBuiltins.java:255-272 | subtracting a duration after adding it gives the original time |
| PlainTime.SubtractIsAddOfNegation | graal-js/src/com.oracle.truffle.js/src/com/oracle/truffle/js/builtins/temporal/TemporalPlainTimePrototypeBuiltins.java:260-267 | subtract is add of the duration with every field multiplied by -1 |
| PlainTime.AddWholeDays | graal-js/src/com.oracle.truffle.js/src/com/oracle/truffle/js/builtins/temporal/TemporalPlainTimePrototypeBuiltins.java:255-272 | adding or subtracting a whole number of days leaves the time unchanged |
| PlainTime.RegulateTime | graal-js/src/com.oracle.truffle.js/src/com/oracle/truffle/js/builtins/temporal/TemporalPlainTimePrototypeBuiltins.java:421 | a valid time is kept; reject turns an invalid one into RangeError; constrain clamps each field into range |
| PlainTime.RegulateTimeIdempotent | graal-js/src/com.oracle.truffle.js/src/com/oracle/truffle/js/builtins/temporal/TemporalPlainTimePrototypeBuiltins.java:421 | regulating an already regulated time changes nothing |
| PlainTime.With | graal-js/src/com.oracle.truffle.js/src/com/oracle/truffle/js/builtins/temporal/TemporalPlainTimePrototypeBuiltins.java:354-425 | TypeError for a non-object or one carrying calendar or timeZone, then errors of the fields and options; a result is regulateTime, with the overflow read, of the receiver merged with the given fields; constrain always succeeds |
| PlainTime.WithAllFields | graal-js/src/com.oracle.truffle.js/src/com/oracle/truffle/js/builtins/temporal/TemporalPlainTimePrototypeBuiltins.java:379-421 | giving all six fields of another time yields exactly that time |
| PlainTime.DifferenceTemporalPlainTime | graal-js/src/com.oracle.truffle.js/src/com/oracle/truffle/js/builtins/temporal/TemporalPlainTimePrototypeBuiltins.java:274-303 | errors of the argument and options propagate, and only they fail; results have zero date fields; until returns balanceDuration of roundDuration of differenceTime with the settings read |
| PlainTime.SinceIsNegatedUntil | graal-js/src/com.oracle.truffle.js/src/com/oracle/truffle/js/builtins/temporal/TemporalPlainTimePrototypeBuiltins.java:467-479 | since is until with the rounding mode negated and every result field negated |
| PlainTime.RoundPlainTime | graal-js/src/com.oracle.truffle.js/src/com/oracle/truffle/js/builtins/temporal/TemporalPlainTimePrototypeBuiltins.java:494-533 | TypeError for undefined, RangeError for a missing smallestUnit; succeeds iff the given increment (default 1) is below the unit maximum and divides it; the result is roundTime with exactly that increment and the settings read |
| PlainTime.RoundStringIsSmallestUnit | graal-js/src/com.oracle.truffle.js/src/com/oracle/truffle/js/builtins/temporal/TemporalPlainTimePrototypeBuiltins.java:505-508 | a string argument behaves as an options object holding only smallestUnit |
| PlainTime.EqualsIntl | graal-js/src/com.oracle.truffle.js/src/com/oracle/truffle/js/builtins/temporal/TemporalPlainTimePrototypeBuiltins.java:561-581 | true iff all six fields are equal |
| PlainTime.ToZonedDateTime | graal-js/src/com.oracle.truffle.js/src/com/oracle/truffle/js/builtins/temporal/TemporalPlainTimePrototypeBuiltins.java:623-651 | TypeError for a non-object or a missing plainDate or timeZone; the result takes the date's calendar and the zone, at the instant of that date and time |
| PlainTime.ToZonedDateTimeReadsBack | graal-js/src/com.oracle.truffle.js/src/com/oracle/truffle/js/builtins/temporal/TemporalPlainTimePrototypeBuiltins.java:623-651 | in a fixed-offset zone the result reads back as the given date and time |
| InstantBuiltins.InstantGetter | graal-js/src/com.oracle.truffle.js/src/com/oracle/truffle/js/builtins/temporal/TemporalInstantPrototypeBuiltins.java:199-213 | epochNanoseconds as stored; the others divide by 10^9, 10^6 or 10^3, truncating toward zero |
| InstantBuiltins.EpochGettersNest | graal-js/src/com.oracle.truffle.js/src/com/oracle/truffle/js/builtins/temporal/TemporalInstantPrototypeBuiltins.java:199-213 | each coarser epoch getter is the next finer one divided by 1000, truncating |
| InstantBuiltins.ToLimitedTimeDuration | graal-js/src/com.oracle.truffle.js/src/com/oracle/truffle/js/builtins/temporal/TemporalInstantPrototypeBuiltins.java:228 | accepted iff years, months, weeks and days are zero, otherwise a RangeError |
| InstantBuiltins.AddInstant | graal-js/src/com.oracle.truffle.js/src/com/oracle/truffle/js/builtins/temporal/TemporalInstantPrototypeBuiltins.java:229 | the sum of the epoch and the time fields, accepted iff within the instant range |
| InstantBuiltins.AddDurationToOrSubtractDurationFromInstant | graal-js/src/com.oracle.truffle.js/src/com/oracle/truffle/js/builtins/temporal/TemporalInstantPrototypeBuiltins.java:226-232 | errors of the duration propagate; date fields are rejected; with zero date fields it succeeds iff the old instant plus or minus the time fields is in range, and is that instant |
| InstantBuiltins.InstantSubtractUndoesAdd | graal-js/src/com.oracle.truffle.js/src/com/oracle/truffle/js/builtins/temporal/TemporalInstantPrototypeBuiltins.java:226-232 | subtracting what was added gives the original instant back |
| InstantBuiltins.InstantSubtractIsAddOfNegation | graal-js/src/com.oracle.truffle.js/src/com/oracle/truffle/js/builtins/temporal/TemporalInstantPrototypeBuiltins.java:229 | subtract is add of the duration multiplied by -1 |
| InstantBuiltins.UntilOrSince | graal-js/src/com.oracle.truffle.js/src/com/oracle/truffle/js/builtins/temporal/TemporalInstantPrototypeBuiltins.java:283-309 | succeeds iff the other instant, the options object and the difference settings (largestUnit at least second, no date units) all read; then the result is balanceDuration, to the largest unit, of differenceInstant from the first to the second operand with the settings' increment, smallest unit and rounding mode, with date fields zero; errors propagate |
| InstantBuiltins.SinceSwapsOperands | graal-js/src/com.oracle.truffle.js/src/com/oracle/truffle/js/builtins/temporal/TemporalInstantPrototypeBuiltins.java:300-304 | a.since(b) is b.until(a), with neither the mode nor the result negated |
| InstantBuiltins.InstantRoundingMaximum | graal-js/src/com.oracle.truffle.js/src/com/oracle/truffle/js/builtins/temporal/TemporalInstantPrototypeBuiltins.java:348-362 | the maximum increment times the unit's length is exactly one day |
| InstantBuiltins.RoundInstant | graal-js/src/com.oracle.truffle.js/src/com/oracle/truffle/js/builtins/temporal/TemporalInstantPrototypeBuiltins.java:325-366 | TypeError for undefined, RangeError for a missing smallestUnit or a date unit; succeeds iff the given increment (default 1) is at most the unit maximum and divides it; the result is roundTemporalInstant with exactly that increment |
| InstantBuiltins.RoundAcceptsWholeDay | graal-js/src/com.oracle.truffle.js/src/com/oracle/truffle/js/builtins/temporal/TemporalInstantPrototypeBuiltins.java:363 | for every time unit, the increment that makes one whole day is accepted, because the maximum is inclusive, and the instant is rounded by it |
| InstantBuiltins.Equals | graal-js/src/com.oracle.truffle.js/src/com/oracle/truffle/js/builtins/temporal/TemporalInstantPrototypeBuiltins.java:382-387 | true iff the epoch nanoseconds are equal |
| InstantBuiltins.ToZonedDateTime | graal-js/src/com.oracle.truffle.js/src/com/oracle/truffle/js/builtins/temporal/TemporalInstantPrototypeBuiltins.java:468-490 | succeeds iff the argument is an object with a calendar and a timeZone, and keeps the epoch nanoseconds |
| InstantBuiltins.ToZonedDateTimeISO | graal-js/src/com.oracle.truffle.js/src/com/oracle/truffle/js/builtins/temporal/TemporalInstantPrototypeBuiltins.java:506-521 | keeps the epoch nanoseconds with the ISO calendar; an object's timeZone property is used when present, otherwise the argument itself converts, and the call succeeds exactly when the zone used converts, with that zone |
| ZonedDateTimeBuiltins.GetterEpoch | graal-js/src/com.oracle.truffle.js/src/com/oracle/truffle/js/builtins/temporal/TemporalZonedDateTimePrototypeBuiltins.java:349-356 | the four epoch getters are those of the Instant with the same nanoseconds |
| ZonedDateTimeBuiltins.NextDay | graal-js/src/com.oracle.truffle.js/src/com/oracle/truffle/js/builtins/temporal/TemporalZonedDateTimePrototypeBuiltins.java:384 | tomorrow is one epoch day after today |
| ZonedDateTimeBuiltins.GetterHoursInDayAsWritten | graal-js/src/com.oracle.truffle.js/src/com/oracle/truffle/js/builtins/temporal/TemporalZonedDateTimePrototypeBuiltins.java:375-394 | the day length divided, truncating, by 36_000_000_000_000 nanoseconds |
| ZonedDateTimeBuiltins.GetterHoursInDay | graal-js/src/com.oracle.truffle.js/src/com/oracle/truffle/js/builtins/temporal/TemporalZonedDateTimePrototypeBuiltins.java:375-394 | the day length in whole hours |
| ZonedDateTimeBuiltins.FixedOffsetDayLasts24Hours | graal-js/src/com.oracle.truffle.js/src/com/oracle/truffle/js/builtins/temporal/TemporalZonedDateTimePrototypeBuiltins.java:375-394 | in a fixed-offset zone a day lasts one day of nanoseconds and has 24 hours |
| ZonedDateTimeBuiltins.HoursInDayAsWrittenReportsTwo | graal-js/src/com.oracle.truffle.js/src/com/oracle/truffle/js/builtins/temporal/TemporalZonedDateTimePrototypeBuiltins.java:393 | as written, a fixed-offset day reports 2 hours, not 24 |
| ZonedDateTimeBuiltins.MonthCode | graal-js/src/com.oracle.truffle.js/src/com/oracle/truffle/js/builtins/temporal/TemporalZonedDateTimePrototypeBuiltins.java:413-414 | "M" followed by the two digits of the month |
| ZonedDateTimeBuiltins.CalendarDetail | graal-js/src/com.oracle.truffle.js/src/com/oracle/truffle/js/builtins/temporal/TemporalZonedDateTimePrototypeBuiltins.java:402-447 | daysInWeek is 7, monthsInYear 12, dayOfWeek in 1..7 and weekOfYear in 1..53 |
| ZonedDateTimeBuiltins.CalendarDetailAsWritten | graal-js/src/com.oracle.truffle.js/src/com/oracle/truffle/js/builtins/temporal/TemporalZonedDateTimePrototypeBuiltins.java:435-436 | as written, daysInWeek answers weekOfYear; every other property agrees with CalendarDetail |
| ZonedDateTimeBuiltins.GetterCalendarDetails | graal-js/src/com.oracle.truffle.js/src/com/oracle/truffle/js/builtins/temporal/TemporalZonedDateTimePrototypeBuiltins.java:402-444 | each of the eighteen getters reads the local date-time through the zone: the year, month, day and the six time fields, monthCode, dayOfWeek (1..7), dayOfYear, weekOfYear (1..53), daysInMonth, daysInYear and inLeapYear of the local date; daysInWeek is 7 and monthsInYear 12 |
| ZonedDateTimeBuiltins.GetterCalendarDetailsAsWritten | graal-js/src/com.oracle.truffle.js/src/com/oracle/truffle/js/builtins/temporal/TemporalZonedDateTimePrototypeBuiltins.java:434-436 | as written, daysInWeek answers the local weekOfYear; every other getter agrees with GetterCalendarDetails |
| ZonedDateTimeBuiltins.DaysInWeekAsWrittenAtEpoch | graal-js/src/com.oracle.truffle.js/src/com/oracle/truffle/js/builtins/temporal/TemporalZonedDateTimePrototypeBuiltins.java:435-436 | on 1970-01-01 the as-written daysInWeek is 1 where 7 is meant |
| ZonedDateTimeBuiltins.UtcReadsEpochNanoseconds | graal-js/src/com.oracle.truffle.js/src/com/oracle/truffle/js/builtins/temporal/TemporalZonedDateTimePrototypeBuiltins.java:402-406 | in the UTC zone the wall-clock reading of a date-time's epoch nanoseconds is that date-time |
| ZonedDateTimeBuiltins.With | graal-js/src/com.oracle.truffle.js/src/com/oracle/truffle/js/builtins/temporal/TemporalZonedDateTimePrototypeBuiltins.java:520-567 | TypeError for a non-object or one carrying calendar or timeZone; then errors of the fields, the options object (TypeError), disambiguation and offset (RangeError) in that order; a result keeps zone and calendar and is interpretISODateTimeOffset of the merged fields with the options read |
| ZonedDateTimeBuiltins.WithReadsBackMergedFields | graal-js/src/com.oracle.truffle.js/src/com/oracle/truffle/js/builtins/temporal/TemporalZonedDateTimePrototypeBuiltins.java:520-567 | in a fixed-offset zone, merged fields that carry the zone's own offset make with succeed, and the result reads back as those fields |
| ZonedDateTimeBuiltins.WithPlainTime | graal-js/src/com.oracle.truffle.js/src/com/oracle/truffle/js/builtins/temporal/TemporalZonedDateTimePrototypeBuiltins.java:583-602 | no argument means midnight; keeps zone and calendar; the instant is that of the local date at the given time; a bad argument's error propagates |
| ZonedDateTimeBuiltins.StartOfDay | graal-js/src/com.oracle.truffle.js/src/com/oracle/truffle/js/builtins/temporal/TemporalZonedDateTimePrototypeBuiltins.java:992-1003 | keeps zone and calendar |
| ZonedDateTimeBuiltins.WithNoPlainTimeIsStartOfDay | graal-js/src/com.oracle.truffle.js/src/com/oracle/truffle/js/builtins/temporal/TemporalZonedDateTimePrototypeBuiltins.java:588-589 | withPlainTime() with no argument is startOfDay() |
| ZonedDateTimeBuiltins.WithPlainTimeReadsBack | graal-js/src/com.oracle.truffle.js/src/com/oracle/truffle/js/builtins/temporal/TemporalZonedDateTimePrototypeBuiltins.java:583-602 | in a fixed-offset zone the result has the same local date and the given time |
| ZonedDateTimeBuiltins.StartOfDayIsMidnight | graal-js/src/com.oracle.truffle.js/src/com/oracle/truffle/js/builtins/temporal/TemporalZonedDateTimePrototypeBuiltins.java:992-1003 | in a fixed-offset zone startOfDay is midnight of the same local date, and is idempotent |
| ZonedDateTimeBuiltins.ConsolidateCalendars | graal-js/src/com.oracle.truffle.js/src/com/oracle/truffle/js/builtins/temporal/TemporalZonedDateTimePrototypeBuiltins.java:627 | succeeds iff the calendars are equal or one is ISO, then picks the non-ISO one; otherwise RangeError |
| ZonedDateTimeBuiltins.WithPlainDate | graal-js/src/com.oracle.truffle.js/src/com/oracle/truffle/js/builtins/temporal/TemporalZonedDateTimePrototypeBuiltins.java:618-633 | the consolidated calendar, the same zone, the instant of the new date at the old local time; succeeds exactly when the calendars consolidate (equal, or one of them ISO), otherwise RangeError; an argument error propagates |
| ZonedDateTimeBuiltins.WithPlainDateReadsBack | graal-js/src/com.oracle.truffle.js/src/com/oracle/truffle/js/builtins/temporal/TemporalZonedDateTimePrototypeBuiltins.java:618-633 | in a fixed-offset zone the result has the given date and the old local time |
| ZonedDateTimeBuiltins.WithTimeZone | graal-js/src/com.oracle.truffle.js/src/com/oracle/truffle/js/builtins/temporal/TemporalZonedDateTimePrototypeBuiltins.java:649-653 | succeeds iff the zone converts; keeps epoch nanoseconds and calendar |
| ZonedDateTimeBuiltins.WithCalendar | graal-js/src/com.oracle.truffle.js/src/com/oracle/truffle/js/builtins/temporal/TemporalZonedDateTimePrototypeBuiltins.java:669-673 | succeeds iff the calendar converts; keeps epoch nanoseconds and zone |
| ZonedDateTimeBuiltins.WithTimeZoneAndCalendarCommute | graal-js/src/com.oracle.truffle.js/src/com/oracle/truffle/js/builtins/temporal/TemporalZonedDateTimePrototypeBuiltins.java:649-673 | changing zone then calendar equals changing calendar then zone |
| ZonedDateTimeBuiltins.AddDurationToOrSubtractDurationFromZonedDateTime | graal-js/src/com.oracle.truffle.js/src/com/oracle/truffle/js/builtins/temporal/TemporalZonedDateTimePrototypeBuiltins.java:687-701 | errors of the duration and options propagate; otherwise the result is exactly addZonedDateTime of the duration times the sign, its error or its instant in the same zone and calendar |
| ZonedDateTimeBuiltins.ZonedSubtractIsAddOfNegation | graal-js/src/com.oracle.truffle.js/src/com/oracle/truffle/js/builtins/temporal/TemporalZonedDateTimePrototypeBuiltins.java:695-699 | subtract is add with all ten fields multiplied by -1 |
| ZonedDateTimeBuiltins.ZonedDifferenceSettings | graal-js/src/com.oracle.truffle.js/src/com/oracle/truffle/js/builtins/temporal/TemporalZonedDateTimePrototypeBuiltins.java:712-722 | largest unit at least the smallest; undefined options give nanosecond, hour, trunc and 1 |
| ZonedDateTimeBuiltins.DifferenceTemporalZonedDateTime | graal-js/src/com.oracle.truffle.js/src/com/oracle/truffle/js/builtins/temporal/TemporalZonedDateTimePrototypeBuiltins.java:703-750 | RangeError for another calendar; a time largest unit gives the balanced differenceInstant times the sign whatever the zones; a date largest unit succeeds exactly with the same zone (RangeError otherwise) and gives the rounded, adjusted differenceZonedDateTime times the sign |
| ZonedDateTimeBuiltins.Since | graal-js/src/com.oracle.truffle.js/src/com/oracle/truffle/js/builtins/temporal/TemporalZonedDateTimePrototypeBuiltins.java:836-886 | the same error cases as until; once the calendars match and the settings read, it succeeds exactly for a time largest unit or the same zone, and otherwise is a RangeError; a time largest unit gives zero date fields |
| ZonedDateTimeBuiltins.SinceMatchesSharedDifference | graal-js/src/com.oracle.truffle.js/src/com/oracle/truffle/js/builtins/temporal/TemporalZonedDateTimePrototypeBuiltins.java:836-886 | since's separate code equals the shared difference with sign -1: mode negated and every field negated |
| ZonedDateTimeBuiltins.ZonedUntilAgreesWithInstantUntil | graal-js/src/com.oracle.truffle.js/src/com/oracle/truffle/js/builtins/temporal/TemporalZonedDateTimePrototypeBuiltins.java:703-729 | with a time largestUnit, ZonedDateTime until equals Instant until of the two exact times, errors included |
| ZonedDateTimeBuiltins.DateTimeRoundingIncrement | graal-js/src/com.oracle.truffle.js/src/com/oracle/truffle/js/builtins/temporal/TemporalZonedDateTimePrototypeBuiltins.java:925 | the given increment (default 1), and a RangeError otherwise; succeeds for day exactly when it is 1, for the other date units when it is at least 1, for time units when it is at least 1, below the unit's maximum and divides it |
| ZonedDateTimeBuiltins.Round | graal-js/src/com.oracle.truffle.js/src/com/oracle/truffle/js/builtins/temporal/TemporalZonedDateTimePrototypeBuiltins.java:902-949 | TypeError for undefined, RangeError for a missing smallestUnit or a zero-length day; once the settings, the increment and a non-zero day length read, the result is exactly interpretISODateTimeOffset (compatible, prefer) of roundISODateTime of the local date-time, or its error, keeping zone and calendar |
| ZonedDateTimeBuiltins.RoundDayLength | graal-js/src/com.oracle.truffle.js/src/com/oracle/truffle/js/builtins/temporal/TemporalZonedDateTimePrototypeBuiltins.java:934-941 | defined iff adding one day to the start of the day succeeds |
| ZonedDateTimeBuiltins.Equals | graal-js/src/com.oracle.truffle.js/src/com/oracle/truffle/js/builtins/temporal/TemporalZonedDateTimePrototypeBuiltins.java:965-976 | true iff epoch nanoseconds, zone and calendar are all equal |
| ZonedDateTimeBuiltins.ToInstant | graal-js/src/com.oracle.truffle.js/src/com/oracle/truffle/js/builtins/temporal/TemporalZonedDateTimePrototypeBuiltins.java:1018-1020 | keeps the epoch nanoseconds |
| ZonedDateTimeBuiltins.ToPlainDate | graal-js/src/com.oracle.truffle.js/src/com/oracle/truffle/js/builtins/temporal/TemporalZonedDateTimePrototypeBuiltins.java:1035-1042 | the local date through the zone, with the calendar |
| ZonedDateTimeBuiltins.ToPlainTime | graal-js/src/com.oracle.truffle.js/src/com/oracle/truffle/js/builtins/temporal/TemporalZonedDateTimePrototypeBuiltins.java:1057-1065 | the local time through the zone |
| ZonedDateTimeBuiltins.ToPlainDateTime | graal-js/src/com.oracle.truffle.js/src/com/oracle/truffle/js/builtins/temporal/TemporalZonedDateTimePrototypeBuiltins.java:1080-1086 | its date is toPlainDate's, its time toPlainTime's, and it carries the calendar |
| ZonedDateTimeBuiltins.PlainDateTimeDeterminesExactTime | graal-js/src/com.oracle.truffle.js/src/com/oracle/truffle/js/builtins/temporal/TemporalZonedDateTimePrototypeBuiltins.java:1080-1086 | in one fixed-offset zone, equal local date-times mean equal instants |
| ToTemporalDate.CalendarWithISODefault | graal-js/src/com.oracle.truffle.js/src/com/oracle/truffle/js/nodes/temporal/ToTemporalDateNode.java:111-119 | an absent calendar is ISO 8601; a present one is used as it converts |
| ToTemporalDate.ToTemporalDate | graal-js/src/com.oracle.truffle.js/src/com/oracle/truffle/js/nodes/temporal/ToTemporalDateNode.java:81-121 | a PlainDate is returned as it is; a bad overflow option fails the other Temporal and string paths; a PlainDateTime keeps date and calendar; a ZonedDateTime gives its local date; a string gives its valid date, ISO by default; a bag goes to dateFromFields |
| ToTemporalDate.ZonedDateTimeAgreesWithToPlainDate | graal-js/src/com.oracle.truffle.js/src/com/oracle/truffle/js/nodes/temporal/ToTemporalDateNode.java:100-105 | converting a ZonedDateTime gives the same value as its toPlainDate |
| ToTemporalDate.ToTemporalDateIdempotent | graal-js/src/com.oracle.truffle.js/src/com/oracle/truffle/js/nodes/temporal/ToTemporalDateNode.java:98-99 | converting a result again returns it unchanged |
| ToTemporalMonthDay.CreateMonthDay | graal-js/src/com.oracle.truffle.js/src/com/oracle/truffle/js/nodes/temporal/ToTemporalMonthDayNode.java:146-148 | succeeds iff month and day are valid in the reference year; otherwise RangeError |
| ToTemporalMonthDay.ReferenceYearHoldsEveryMonthDay | graal-js/src/com.oracle.truffle.js/src/com/oracle/truffle/js/nodes/temporal/ToTemporalMonthDayNode.java:104 | every month-day valid in some year is valid in 1972 |
| ToTemporalMonthDay.CalendarAbsent | graal-js/src/com.oracle.truffle.js/src/com/oracle/truffle/js/nodes/temporal/ToTemporalMonthDayNode.java:113-124 | only a plain object with an undefined calendar property counts as calendar-absent |
| ToTemporalMonthDay.WithReferenceYear | graal-js/src/com.oracle.truffle.js/src/com/oracle/truffle/js/nodes/temporal/ToTemporalMonthDayNode.java:137-139 | day, month and monthCode are kept; year becomes 1972 iff the calendar is absent, month is present and monthCode and year are absent (or it already was 1972) |
| ToTemporalMonthDay.ToTemporalMonthDay | graal-js/src/com.oracle.truffle.js/src/com/oracle/truffle/js/nodes/temporal/ToTemporalMonthDayNode.java:92-153 | a PlainMonthDay is returned as it is; objects go to monthDayFromFields, a bag with the reference-year rule; a string checks overflow first, without a year gives that month-day in 1972, and with a year gives monthDayFromFields of that month-day in 1972 |
| ToTemporalMonthDay.YearlessStringConverts | graal-js/src/com.oracle.truffle.js/src/com/oracle/truffle/js/nodes/temporal/ToTemporalMonthDayNode.java:142-148 | a yearless string whose month-day exists in some year converts to that month-day in 1972 with the ISO calendar |
| ToTemporalMonthDay.LeapDayStringConverts | graal-js/src/com.oracle.truffle.js/src/com/oracle/truffle/js/nodes/temporal/ToTemporalMonthDayNode.java:142-148 | "--02-29" without a year converts |
| ToTemporalMonthDay.ToTemporalMonthDayIdempotent | graal-js/src/com.oracle.truffle.js/src/com/oracle/truffle/js/nodes/temporal/ToTemporalMonthDayNode.java:108-110 | converting a result again returns it unchanged |
| ArrayBufferBuiltins.ArrayBuffer.Wrap | graal-js/src/com.oracle.truffle.js/src/com/oracle/truffle/js/builtins/ArrayBufferPrototypeBuiltins.java:505 | a buffer over the given byte array (createArrayBuffer), undetached and without a detach key |
| ArrayBufferBuiltins.ArrayBuffer.ByteLength | graal-js/src/com.oracle.truffle.js/src/com/oracle/truffle/js/builtins/ArrayBufferPrototypeBuiltins.java:150-157 | the length of the byte storage, which is 0 once detached |
| ArrayBufferBuiltins.ArrayBuffer.Detach | graal-js/src/com.oracle.truffle.js/src/com/oracle/truffle/js/builtins/ArrayBufferPrototypeBuiltins.java:521 | the buffer becomes detached with empty storage |
| ArrayBufferBuiltins.Zeros | graal-js/src/com.oracle.truffle.js/src/com/oracle/truffle/js/builtins/ArrayBufferPrototypeBuiltins.java:501 | a new byte array of n zero bytes |
| ArrayBufferBuiltins.RelativeIndex | graal-js/src/com.oracle.truffle.js/src/com/oracle/truffle/js/builtins/ArrayBufferPrototypeBuiltins.java:217-233 | a negative index counts from the end and is floored at 0; a non-negative one is capped at the length |
| ArrayBufferBuiltins.GetStart | graal-js/src/com.oracle.truffle.js/src/com/oracle/truffle/js/builtins/ArrayBufferPrototypeBuiltins.java:217-224 | a position within the buffer |
| ArrayBufferBuiltins.GetEnd | graal-js/src/com.oracle.truffle.js/src/com/oracle/truffle/js/builtins/ArrayBufferPrototypeBuiltins.java:226-233 | a position within the buffer; undefined means the length |
| ArrayBufferBuiltins.Clamp | graal-js/src/com.oracle.truffle.js/src/com/oracle/truffle/js/builtins/ArrayBufferPrototypeBuiltins.java:245-247 | within [lower, upper], and the identity there |
| ArrayBufferBuiltins.ClampIndex | graal-js/src/com.oracle.truffle.js/src/com/oracle/truffle/js/builtins/ArrayBufferPrototypeBuiltins.java:238-240 | within [lower, upper]; the identity on in-range indices; a negative index counts back from upper |
| ArrayBufferBuiltins.ClampIndexKeepsRelativeIndices | graal-js/src/com.oracle.truffle.js/src/com/oracle/truffle/js/builtins/ArrayBufferPrototypeBuiltins.java:286-299 | clamping start and end that came from getStart/getEnd changes nothing |
| ArrayBufferBuiltins.SliceRange | graal-js/src/com.oracle.truffle.js/src/com/oracle/truffle/js/builtins/ArrayBufferPrototypeBuiltins.java:290-292 | 0 ≤ clamped begin ≤ clamped end ≤ length, and in-range bounds are kept |
| ArrayBufferBuiltins.SliceLengthNeverNegative | graal-js/src/com.oracle.truffle.js/src/com/oracle/truffle/js/builtins/ArrayBufferPrototypeBuiltins.java:347-350 | end minus begin is never negative, so max(…, 0) is a no-op |
| ArrayBufferBuiltins.SliceBytes | graal-js/src/com.oracle.truffle.js/src/com/oracle/truffle/js/builtins/ArrayBufferPrototypeBuiltins.java:289-297 | the bytes from clamped begin to clamped end |
| ArrayBufferBuiltins.SliceWholeAndTail | graal-js/src/com.oracle.truffle.js/src/com/oracle/truffle/js/builtins/ArrayBufferPrototypeBuiltins.java:333-340 | slice(0) copies everything and slice(-k) copies the last k bytes |
| ArrayBufferBuiltins.RelativeSliceBytes | graal-js/src/com.oracle.truffle.js/src/com/oracle/truffle/js/builtins/ArrayBufferPrototypeBuiltins.java:333-340 | slice with relative indices copies exactly the bytes between getStart and getEnd |
| ArrayBufferBuiltins.ArrayCopy | graal-js/src/com.oracle.truffle.js/src/com/oracle/truffle/js/builtins/ArrayBufferPrototypeBuiltins.java:297 | the destination range holds the source range and the rest of the destination is unchanged |
| ArrayBufferBuiltins.ConstructNewArrayBuffer | graal-js/src/com.oracle.truffle.js/src/com/oracle/truffle/js/builtins/ArrayBufferPrototypeBuiltins.java:301-323 | TypeError for a non-ArrayBuffer, a detached result, the receiver itself, too short a result, or a source detached meanwhile |
| ArrayBufferBuiltins.SliceIntInt | graal-js/src/com.oracle.truffle.js/src/com/oracle/truffle/js/builtins/ArrayBufferPrototypeBuiltins.java:286-299 | TypeError on a detached source; the species result holds exactly the sliced bytes and the source bytes are unchanged |
| ArrayBufferBuiltins.Slice | graal-js/src/com.oracle.truffle.js/src/com/oracle/truffle/js/builtins/ArrayBufferPrototypeBuiltins.java:333-340 | the bytes between getStart and getEnd, copied into the species result |
| ArrayBufferBuiltins.Resized | graal-js/src/com.oracle.truffle.js/src/com/oracle/truffle/js/builtins/ArrayBufferPrototypeBuiltins.java:490-513 | the first min(new, old) bytes are kept and the rest are zero |
| ArrayBufferBuiltins.ResizedRoundTrip | graal-js/src/com.oracle.truffle.js/src/com/oracle/truffle/js/builtins/ArrayBufferPrototypeBuiltins.java:490-513 | growing then shrinking back gives the original bytes |
| ArrayBufferBuiltins.ResizedTwice | graal-js/src/com.oracle.truffle.js/src/com/oracle/truffle/js/builtins/ArrayBufferPrototypeBuiltins.java:490-513 | growing then shrinking is one resize |
| ArrayBufferBuiltins.Transfer | graal-js/src/com.oracle.truffle.js/src/com/oracle/truffle/js/builtins/ArrayBufferPrototypeBuiltins.java:451-524 | RangeError for a bad length, TypeError when detached or keyed; a fresh buffer holds the resized bytes, reusing the storage at equal length; the source reads as detached with byte length 0, the new buffer as not detached |
| ArrayBufferBuiltins.IsDetached | graal-js/src/com.oracle.truffle.js/src/com/oracle/truffle/js/builtins/ArrayBufferPrototypeBuiltins.java:427-433 | the result is the buffer's detached flag: true gives byte length 0, false the full storage length |
| InteropUtil.ForeignArray.constructor | graal-js/src/com.oracle.truffle.js/src/com/oracle/truffle/js/runtime/interop/JSInteropUtil.java:96-131 | a foreign array with the given elements and an empty operation log |
| InteropUtil.ForeignArray.RemoveArrayElement | graal-js/src/com.oracle.truffle.js/src/com/oracle/truffle/js/runtime/interop/JSInteropUtil.java:109-113 | succeeds iff the index exists and is not refused, then removes it and logs the removal; a failure changes nothing |
| InteropUtil.ForeignArray.WriteArrayElement | graal-js/src/com.oracle.truffle.js/src/com/oracle/truffle/js/runtime/interop/JSInteropUtil.java:114-118 | succeeds iff the index is at most the length and not refused, then overwrites or appends and logs the write |
| InteropUtil.PlannedOps | graal-js/src/com.oracle.truffle.js/src/com/oracle/truffle/js/runtime/interop/JSInteropUtil.java:109-118 | shrinking removes oldLen-1 down to newLen; growing writes undefined at oldLen up to newLen-1 |
| InteropUtil.PlannedOpsOrder | graal-js/src/com.oracle.truffle.js/src/com/oracle/truffle/js/runtime/interop/JSInteropUtil.java:109-118 | removals are strictly descending and writes strictly ascending; equal lengths plan nothing |
| InteropUtil.SizedTo | graal-js/src/com.oracle.truffle.js/src/com/oracle/truffle/js/runtime/interop/JSInteropUtil.java:109-118 | the array cut or padded with undefined to n elements |
| InteropUtil.SizedToRoundTrip | graal-js/src/com.oracle.truffle.js/src/com/oracle/truffle/js/runtime/interop/JSInteropUtil.java:109-118 | growing then shrinking back gives the original elements |
| InteropUtil.RemoveDescending | graal-js/src/com.oracle.truffle.js/src/com/oracle/truffle/js/runtime/interop/JSInteropUtil.java:109-113 | performs a prefix of the planned removals, stopping exactly at the first refused index |
| InteropUtil.WriteAscending | graal-js/src/com.oracle.truffle.js/src/com/oracle/truffle/js/runtime/interop/JSInteropUtil.java:114-118 | performs a prefix of the planned writes, stopping exactly at the first refused index |
| InteropUtil.SetArraySize | graal-js/src/com.oracle.truffle.js/src/com/oracle/truffle/js/runtime/interop/JSInteropUtil.java:96-131 | RangeError for an invalid length; TypeError without array elements; true exactly when every planned operation succeeded, then the array is resized; a failure is a TypeError in strict mode and false otherwise |
| InteropUtil.Keys | graal-js/src/com.oracle.truffle.js/src/com/oracle/truffle/js/runtime/interop/JSInteropUtil.java:243-260 | RangeError for a negative size or one of at least Integer.MAX_VALUE; otherwise the first size member names in order |
| InteropUtil.NatToString | graal-js/src/com.oracle.truffle.js/src/com/oracle/truffle/js/runtime/interop/JSInteropUtil.java:424-437 | a non-empty string of decimal digits |
| InteropUtil.ParseNatToString | graal-js/src/com.oracle.truffle.js/src/com/oracle/truffle/js/runtime/interop/JSInteropUtil.java:424-437 | the decimal text of a number reads back as that number |
| InteropUtil.DashIndex | graal-js/src/com.oracle.truffle.js/src/com/oracle/truffle/js/runtime/interop/JSInteropUtil.java:428-436 | the position of the first '-', or the length |
| InteropUtil.RangeReadsBack | graal-js/src/com.oracle.truffle.js/src/com/oracle/truffle/js/runtime/interop/JSInteropUtil.java:428-436 | a "lo" or "lo-hi" range reads back as its bounds, the upper one exactly when shown |
| InteropUtil.FormatSourceLocation | graal-js/src/com.oracle.truffle.js/src/com/oracle/truffle/js/runtime/interop/JSInteropUtil.java:420-438 | null is "Unknown"; otherwise name, line range and character range, the second line shown only when start < end and the last character only when the length exceeds 1 |
| InteropUtil.FrameText | graal-js/src/com.oracle.truffle.js/src/com/oracle/truffle/js/runtime/interop/JSInteropUtil.java:391-403 | the "at" line of one frame, with the anonymous name for an empty function name |
| InteropUtil.FormatError | graal-js/src/com.oracle.truffle.js/src/com/oracle/truffle/js/runtime/interop/JSInteropUtil.java:359-418 | the message (or "Error") followed by one line per frame that has a name or a location |
| InteropUtil.FrameLineHasOneNewline | graal-js/src/com.oracle.truffle.js/src/com/oracle/truffle/js/runtime/interop/JSInteropUtil.java:391-403 | each frame line contributes exactly one line break |
| InteropUtil.TraceTextLineCount | graal-js/src/com.oracle.truffle.js/src/com/oracle/truffle/js/runtime/interop/JSInteropUtil.java:387-405 | the trace has one line break per shown frame, so skipped frames leave no line |
| InteropUtil.FormattedErrorLineCount | graal-js/src/com.oracle.truffle.js/src/com/oracle/truffle/js/runtime/interop/JSInteropUtil.java:359-418 | a foreign exception's text has one line per shown frame beyond its header |

## Left out

- **Time zones.** The IANA time-zone database and the plain-date-time/instant conversions of non-fixed zones are function values. Only fixed-offset zones are given a concrete meaning.
- **TemporalUtil helpers.** These are fields of helper records. Contracts tie each builtin's result to the helper's value or error, not to what the helper computes:
  - `roundTime`, `roundDuration`, `balanceDuration`, `differenceInstant`, `differenceTime`
  - `differenceZonedDateTime`, `adjustRoundedDurationDays`, `addZonedDateTime`, `roundISODateTime`
  - `interpretTemporalDateTimeFields`, `interpretISODateTimeOffset`, `getOffsetNanosecondsFor`
  - `roundTemporalInstant`, `calendarDateUntil`
  - `TemporalUtil` itself is not part of this model.
- ZonedDateTimeBuiltins.With: the receiver's fields, `calendarMergeFields`, `interpretTemporalDateTimeFields` and `parseTimeZoneOffsetString` are one helper, `mergeAndInterpretFields`, which yields the wall-clock reading and the offset. How the disambiguation and offset options pick an exact time is the helper `interpretISODateTimeOffset`.
- CalendarBuiltins.DateUntil: the four date fields come from a `difference` parameter standing for `differenceISODate`; `JSTemporalPlainDate` is not part of this model. `CalendarBuiltins.DateUntilThenDateAdd` states what a difference that adds back gives.
- ZonedDateTimeBuiltins.GetterCalendarDetails: the getters are evaluated with ISO 8601 calendar rules, whatever calendar the ZonedDateTime carries.
- **Non-ISO calendars.** `dateFromFields` and `monthDayFromFields` are parameters, and so are a user calendar's `dateAdd` and `dateUntil`. The calendar builtins are modelled for the ISO 8601 calendar.
- **Field preparation.** `prepareTemporalFields`, `toInteger`/`ToNumber` and property reads are left out. Each argument arrives as the datatype of what those reads produce: a `DateLike`, a `PartialTime`, options as parsed values.
- **Doubles.** Duration fields and increments are integers: NaN, infinities and IEEE rounding are not modelled. `dtol` is the identity, and `dtoi` in `CalendarBuiltins.DtoiConstrain` is a saturating clamp.
- **Range limits.** Date and date-time range limits beyond the epoch-nanosecond range of Instant are not checked.
- **Mixed-sign durations.** `BalanceRelative.BalanceDurationRelative` requires the date fields not to mix signs, and a calendar whose steps carry the duration's sign. For other inputs the source loops are not guaranteed to end.
- **Calendar stubs.** The calendar `year`, `monthCode`, `day`, `mergeFields`, `dateFromFields`, `yearMonthFromFields` and `monthDayFromFields` builtins are not modelled. They only forward to `TemporalUtil` code outside this model.
- **Parsing.** `toString`, `toLocaleString`, `toJSON` and ISO string parsing are not modelled. Their results (a parsed date or month-day, or a parse error) are inputs.
- **Other ZonedDateTime members.** The offset getters, `toPlainYearMonth`, `toPlainMonthDay` and `getISOFields` are not modelled: they format strings or forward to conversions outside the core.
- **ArrayBuffer paths:**
  - the interop and Truffle-buffer slice paths
  - `sliceDirectIntInt`'s `ByteBuffer` duplication
  - the typed-array-not-detached assumption, whose optimisation skips detach checks
  - resizable buffers and `transferToFixedLength`; the maximum byte length is a parameter
- **ArrayBufferBuiltins.ArrayBuffer.Detach:** the engine drops the storage reference. The model replaces it with a fresh empty array.
- **The foreign array.** It is a `seq` with a set of indices whose removal or write is refused. Interop messages other than `removeArrayElement` and `writeArrayElement` are left out.
- **InteropUtil.FormatError:** `ANONYMOUS_FUNCTION_NAME` is the parameter `anonymousName`. Host exceptions, `JSError` and the engine's own stack-trace objects are not part of this model.
- **InteropUtil.SetArraySize:** `toArrayLengthOrRangeError` is modelled as accepting exactly the integers 0..2^32-1, which omits the number-to-integer conversion.
- **ToTemporalMonthDay.WithReferenceYear:** the source adds `year` to the prepared field bag in place. The model returns an updated record instead.

## Findings

| source | as written | input that shows it | evidently intended | confidence | as-written member | corrected member |
|---|---|---|---|---|---|---|
| graal-js/src/com.oracle.truffle.js/src/com/oracle/truffle/js/builtins/temporal/TemporalZonedDateTimePrototypeBuiltins.java:393 | `hoursInDay` divides the day's length by 36_000_000_000_000 ns, which is ten hours | any ZonedDateTime in a fixed-offset zone: a 24-hour day reports 2 | divide by 3_600_000_000_000 ns (one hour), so a 24-hour day reports 24 | not executed | ZonedDateTimeBuiltins.HoursInDayAsWrittenReportsTwo | ZonedDateTimeBuiltins.FixedOffsetDayLasts24Hours |
| graal-js/src/com.oracle.truffle.js/src/com/oracle/truffle/js/builtins/temporal/TemporalZonedDateTimePrototypeBuiltins.java:435-436 | the `daysInWeek` getter returns `calendarWeekOfYear` | 1970-01-01T00:00Z in the ISO calendar: reports 1 | return `calendarDaysInWeek`, which is 7 for the ISO calendar | not executed | ZonedDateTimeBuiltins.DaysInWeekAsWrittenAtEpoch | ZonedDateTimeBuiltins.CalendarDetail |
