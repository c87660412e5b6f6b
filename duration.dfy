/**
 * Duration records: ten integer fields (the doubles of the engine read as
 * integers), their sign, and the units and rounding modes that options name.
 */
module Duration {
  import opened Wrappers

  datatype DurationRecord = DurationRecord(
    years: int, months: int, weeks: int, days: int,
    hours: int, minutes: int, seconds: int,
    milliseconds: int, microseconds: int, nanoseconds: int)

  function Fields(d: DurationRecord): (fs: seq<int>)
    ensures |fs| == 10
  {
    [d.years, d.months, d.weeks, d.days, d.hours, d.minutes, d.seconds,
     d.milliseconds, d.microseconds, d.nanoseconds]
  }

  /** The sign of the first non-zero value, or 0 when all are zero. */
  function FirstNonZeroSign(fs: seq<int>): (r: int)
    ensures r == -1 || r == 0 || r == 1
    ensures r == 0 <==> forall i :: 0 <= i < |fs| ==> fs[i] == 0
    ensures r != 0 ==> exists i :: 0 <= i < |fs| && r * fs[i] > 0 && forall j :: 0 <= j < i ==> fs[j] == 0
  {
    if fs == [] then 0
    else if fs[0] < 0 then -1
    else if fs[0] > 0 then 1
    else
      var r := FirstNonZeroSign(fs[1..]);
      assert forall i :: 1 <= i < |fs| ==> fs[i] == fs[1..][i - 1];
      r
  }

  /** DurationSign: -1, 0 or 1, taken from the first non-zero field. */
  function DurationSign(d: DurationRecord): int
  {
    FirstNonZeroSign(Fields(d))
  }

  /** A valid duration never mixes positive and negative fields. */
  predicate SameSigns(fs: seq<int>)
  {
    (forall i :: 0 <= i < |fs| ==> fs[i] >= 0) || (forall i :: 0 <= i < |fs| ==> fs[i] <= 0)
  }

  /** In a duration without mixed signs every field agrees with the duration sign. */
  lemma SignAgreesWithFields(fs: seq<int>)
    requires SameSigns(fs)
    ensures FirstNonZeroSign(fs) == 1 ==> forall i :: 0 <= i < |fs| ==> fs[i] >= 0
    ensures FirstNonZeroSign(fs) == -1 ==> forall i :: 0 <= i < |fs| ==> fs[i] <= 0
  {
  }

  /** Every field multiplied by `k`; `k` = -1 negates, as until/since and add/subtract use it. */
  function Scaled(d: DurationRecord, k: int): (r: DurationRecord)
    ensures forall i :: 0 <= i < 10 ==> Fields(r)[i] == k * Fields(d)[i]
  {
    DurationRecord(k * d.years, k * d.months, k * d.weeks, k * d.days,
      k * d.hours, k * d.minutes, k * d.seconds,
      k * d.milliseconds, k * d.microseconds, k * d.nanoseconds)
  }

  lemma {:induction false} NegatedSign(fs: seq<int>)
    ensures FirstNonZeroSign(seq(|fs|, i requires 0 <= i < |fs| => -fs[i])) == -FirstNonZeroSign(fs)
  {
    var neg := seq(|fs|, i requires 0 <= i < |fs| => -fs[i]);
    if fs != [] && fs[0] == 0 {
      NegatedSign(fs[1..]);
      assert neg[1..] == seq(|fs[1..]|, i requires 0 <= i < |fs[1..]| => -fs[1..][i]);
    }
  }

  /** Negating a duration negates its sign, and negating twice gives it back. */
  lemma NegatedDuration(d: DurationRecord)
    ensures DurationSign(Scaled(d, -1)) == -DurationSign(d)
    ensures Scaled(Scaled(d, -1), -1) == d
  {
    NegatedSign(Fields(d));
    assert Fields(Scaled(d, -1)) == seq(10, i requires 0 <= i < 10 => -Fields(d)[i]);
  }

  /** A duration whose calendar fields are zero, as time-only differences return. */
  function TimeDuration(hours: int, minutes: int, seconds: int, milliseconds: int, microseconds: int, nanoseconds: int): (r: DurationRecord)
    ensures r.years == 0 && r.months == 0 && r.weeks == 0 && r.days == 0
    ensures r.hours == hours && r.nanoseconds == nanoseconds
  {
    DurationRecord(0, 0, 0, 0, hours, minutes, seconds, milliseconds, microseconds, nanoseconds)
  }

  /** The six time fields of a duration, with zero calendar fields. */
  function TimePart(d: DurationRecord): (r: DurationRecord)
    ensures r.years == 0 && r.months == 0 && r.weeks == 0 && r.days == 0
    ensures r.hours == d.hours && r.minutes == d.minutes && r.seconds == d.seconds
    ensures r.milliseconds == d.milliseconds && r.microseconds == d.microseconds && r.nanoseconds == d.nanoseconds
  {
    TimeDuration(d.hours, d.minutes, d.seconds, d.milliseconds, d.microseconds, d.nanoseconds)
  }

  /** Nanoseconds in the six time fields of a duration (hours through nanoseconds). */
  function TimeFieldsNs(d: DurationRecord): int
  {
    ((((d.hours * 60 + d.minutes) * 60 + d.seconds) * 1000 + d.milliseconds) * 1000 + d.microseconds) * 1000 + d.nanoseconds
  }

  /** Scaling the fields of a duration by the sign of an addition scales its nanoseconds. */
  lemma ScaledTimeFieldsNs(d: DurationRecord, sign: int)
    requires sign == 1 || sign == -1
    ensures TimeFieldsNs(Scaled(d, sign)) == if sign == 1 then TimeFieldsNs(d) else -TimeFieldsNs(d)
  {
  }

  /** Temporal units from largest to smallest. */
  datatype Unit = Year | Month | Week | Day | Hour | Minute | Second | Millisecond | Microsecond | Nanosecond

  function UnitRank(u: Unit): (r: nat)
    ensures r < 10
  {
    match u
    case Year => 0 case Month => 1 case Week => 2 case Day => 3 case Hour => 4
    case Minute => 5 case Second => 6 case Millisecond => 7 case Microsecond => 8 case Nanosecond => 9
  }

  /** LargerOfTwoTemporalUnits. */
  function LargerOfTwoUnits(a: Unit, b: Unit): (r: Unit)
    ensures r == a || r == b
    ensures UnitRank(r) <= UnitRank(a) && UnitRank(r) <= UnitRank(b)
  {
    if UnitRank(a) <= UnitRank(b) then a else b
  }

  /** Year, month, week and day: the units whose length depends on a calendar or time zone. */
  predicate IsDateUnit(u: Unit)
  {
    u == Year || u == Month || u == Week || u == Day
  }

  datatype RoundingMode = Ceil | Floor | Expand | Trunc | HalfCeil | HalfFloor | HalfExpand | HalfTrunc | HalfEven

  /** NegateTemporalRoundingMode: the directional modes swap, the symmetric ones stay. */
  function NegateRoundingMode(m: RoundingMode): RoundingMode
  {
    match m
    case Ceil => Floor
    case Floor => Ceil
    case HalfCeil => HalfFloor
    case HalfFloor => HalfCeil
    case _ => m
  }

  lemma NegateRoundingModeInvolution(m: RoundingMode)
    ensures NegateRoundingMode(NegateRoundingMode(m)) == m
    ensures NegateRoundingMode(m) != m <==> m in {Ceil, Floor, HalfCeil, HalfFloor}
  {
  }

  /**
   * MaximumTemporalDurationRoundingIncrement: none for date units, otherwise the
   * count of the unit in the next larger one.
   */
  function MaximumDurationRoundingIncrement(u: Unit): (r: Option<int>)
    ensures r.None? <==> IsDateUnit(u)
  {
    match u
    case Hour => Some(24)
    case Minute => Some(60)
    case Second => Some(60)
    case Millisecond => Some(1000)
    case Microsecond => Some(1000)
    case Nanosecond => Some(1000)
    case _ => None
  }

  /**
   * The largest increment ToTemporalRoundingIncrement admits for a dividend: the
   * dividend itself when inclusive, otherwise one less (but at least 1).
   */
  function IncrementMaximum(dividend: int, inclusive: bool): int
  {
    if inclusive then dividend else if dividend > 1 then dividend - 1 else 1
  }

  /**
   * ToTemporalRoundingIncrement: the increment (1 when absent) must be at least 1
   * and, when there is a dividend, no larger than its maximum and a divisor of it.
   */
  function ToRoundingIncrement(increment: Option<int>, dividend: Option<int>, inclusive: bool): (r: Result<int>)
    ensures r.Ok? ==> r.value >= 1
    ensures r.Ok? && dividend.Some? ==> r.value <= IncrementMaximum(dividend.value, inclusive) && dividend.value % r.value == 0
    ensures r.Ok? && dividend.Some? && !inclusive && dividend.value > 1 ==> r.value < dividend.value
    ensures r.Ok? && increment.Some? ==> r.value == increment.value
    ensures increment.None? && (dividend.None? || IncrementMaximum(dividend.value, inclusive) >= 1) ==> r == Ok(1)
    ensures increment.Some? && increment.value < 1 ==> r == Err(RangeError)
    ensures r.Err? ==> r.error == RangeError
  {
    var inc := if increment.Some? then increment.value else 1;
    if inc < 1 then Err(RangeError)
    else if dividend.None? then Ok(inc)
    else if inc > IncrementMaximum(dividend.value, inclusive) || dividend.value % inc != 0 then Err(RangeError)
    else Ok(inc)
  }

  /** ValidateTemporalUnitRange: the largest unit must not be smaller than the smallest. */
  function ValidateUnitRange(largest: Unit, smallest: Unit): (r: Result<()>)
    ensures r.Ok? <==> UnitRank(largest) <= UnitRank(smallest)
  {
    if UnitRank(largest) > UnitRank(smallest) then Err(RangeError) else Ok(())
  }
}
