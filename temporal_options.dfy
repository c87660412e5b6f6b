/**
 * The options bags of the Temporal builtins (smallestUnit, largestUnit,
 * roundingMode, roundingIncrement, overflow, disambiguation, offset) and the
 * settings that until/since and round derive from them. An option arrives
 * already read from its object: absent, one of the recognised values, or a
 * string the option does not accept.
 */
module TemporalOptions {
  import opened Wrappers
  import opened IsoDate
  import opened Duration

  datatype UnitOption = UnitAbsent | UnitAuto | UnitGiven(unit: Unit) | UnitUnrecognized
  datatype ModeOption = ModeAbsent | ModeGiven(mode: RoundingMode) | ModeUnrecognized
  datatype OverflowOption = OverflowAbsent | OverflowGiven(overflow: Overflow) | OverflowUnrecognized

  /** How a wall-clock reading that a time zone skips or repeats picks its exact time: "compatible", "earlier", "later", "reject". */
  datatype Disambiguation = Compatible | Earlier | Later | RejectAmbiguous
  datatype DisambiguationOption = DisambiguationAbsent | DisambiguationGiven(disambiguation: Disambiguation) | DisambiguationUnrecognized

  /** What an offset that disagrees with the time zone does: "prefer", "use", "ignore", "reject". */
  datatype OffsetOption = Prefer | Use | Ignore | RejectMismatch
  datatype OffsetOptionArg = OffsetAbsent | OffsetGiven(offset: OffsetOption) | OffsetUnrecognized

  /** The properties of an options object that the modelled builtins read. */
  datatype Options = Options(
    smallestUnit: UnitOption, largestUnit: UnitOption, roundingMode: ModeOption,
    roundingIncrement: Option<int>, overflow: OverflowOption,
    disambiguation: DisambiguationOption, offset: OffsetOptionArg)

  const NoOptions: Options := Options(UnitAbsent, UnitAbsent, ModeAbsent, None, OverflowAbsent, DisambiguationAbsent, OffsetAbsent)

  /** An `options` argument: undefined, an object, or some other value. */
  datatype OptionsArg = OptionsUndefined | OptionsObject(options: Options) | OptionsOther

  /** GetOptionsObject: undefined reads as an empty bag, a non-object throws TypeError. */
  function GetOptionsObject(arg: OptionsArg): (r: Result<Options>)
    ensures r.Err? <==> arg.OptionsOther?
    ensures r.Err? ==> r.error == TypeError
    ensures arg.OptionsUndefined? ==> r == Ok(NoOptions)
  {
    match arg
    case OptionsUndefined => Ok(NoOptions)
    case OptionsObject(o) => Ok(o)
    case OptionsOther => Err(TypeError)
  }

  /**
   * ToSmallestTemporalUnit: "auto" is not a smallest unit, and neither is a
   * disallowed one; an absent option gives the fallback (possibly none).
   */
  function ToSmallestUnit(opt: UnitOption, disallowed: set<Unit>, fallback: Option<Unit>): (r: Result<Option<Unit>>)
    ensures r.Ok? && r.value.Some? && opt.UnitGiven? ==> r.value.value == opt.unit
    ensures r.Ok? && opt.UnitGiven? ==> r.value.Some? && r.value.value !in disallowed
    ensures opt.UnitGiven? && opt.unit !in disallowed ==> r.Ok?
    ensures r.Ok? <==> opt.UnitAbsent? || (opt.UnitGiven? && opt.unit !in disallowed)
    ensures opt.UnitAbsent? ==> r == Ok(fallback)
    ensures r.Err? ==> r.error == RangeError
  {
    match opt
    case UnitAbsent => Ok(fallback)
    case UnitGiven(u) => if u in disallowed then Err(RangeError) else Ok(Some(u))
    case _ => Err(RangeError)
  }

  /**
   * ToLargestTemporalUnit with fallback "auto": absent and "auto" both give
   * `autoValue`; a disallowed unit is a RangeError.
   */
  function ToLargestUnit(opt: UnitOption, disallowed: set<Unit>, autoValue: Unit): (r: Result<Unit>)
    ensures r.Ok? && opt.UnitGiven? ==> r.value == opt.unit && opt.unit !in disallowed
    ensures opt.UnitGiven? && opt.unit !in disallowed ==> r == Ok(opt.unit)
    ensures opt.UnitGiven? && opt.unit in disallowed ==> r == Err(RangeError)
    ensures opt.UnitAbsent? || opt.UnitAuto? ==> r == Ok(autoValue)
    ensures opt.UnitUnrecognized? ==> r == Err(RangeError)
    ensures r.Err? ==> r.error == RangeError
  {
    match opt
    case UnitAbsent => Ok(autoValue)
    case UnitAuto => Ok(autoValue)
    case UnitGiven(u) => if u in disallowed then Err(RangeError) else Ok(u)
    case UnitUnrecognized => Err(RangeError)
  }

  /** ToTemporalRoundingMode: the given mode, or the fallback when absent. */
  function ToRoundingMode(opt: ModeOption, fallback: RoundingMode): (r: Result<RoundingMode>)
    ensures r.Err? <==> opt.ModeUnrecognized?
    ensures r.Err? ==> r.error == RangeError
    ensures r.Ok? ==> r.value == if opt.ModeGiven? then opt.mode else fallback
  {
    match opt
    case ModeAbsent => Ok(fallback)
    case ModeGiven(m) => Ok(m)
    case ModeUnrecognized => Err(RangeError)
  }

  /** ToTemporalOverflow: "constrain" unless "reject" is given. */
  function ToOverflow(opt: OverflowOption): (r: Result<Overflow>)
    ensures r.Err? <==> opt.OverflowUnrecognized?
    ensures r.Err? ==> r.error == RangeError
    ensures opt.OverflowAbsent? ==> r == Ok(Constrain)
    ensures opt.OverflowGiven? ==> r == Ok(opt.overflow)
  {
    match opt
    case OverflowAbsent => Ok(Constrain)
    case OverflowGiven(o) => Ok(o)
    case OverflowUnrecognized => Err(RangeError)
  }

  /** ToTemporalDisambiguation: "compatible" unless another recognised value is given. */
  function ToDisambiguation(opt: DisambiguationOption): (r: Result<Disambiguation>)
    ensures r.Err? <==> opt.DisambiguationUnrecognized?
    ensures r.Err? ==> r.error == RangeError
    ensures opt.DisambiguationAbsent? ==> r == Ok(Compatible)
    ensures opt.DisambiguationGiven? ==> r == Ok(opt.disambiguation)
  {
    match opt
    case DisambiguationAbsent => Ok(Compatible)
    case DisambiguationGiven(d) => Ok(d)
    case DisambiguationUnrecognized => Err(RangeError)
  }

  /** ToTemporalOffset: the caller's fallback unless a recognised value is given. */
  function ToOffsetOption(opt: OffsetOptionArg, fallback: OffsetOption): (r: Result<OffsetOption>)
    ensures r.Err? <==> opt.OffsetUnrecognized?
    ensures r.Err? ==> r.error == RangeError
    ensures opt.OffsetAbsent? ==> r == Ok(fallback)
    ensures opt.OffsetGiven? ==> r == Ok(opt.offset)
  {
    match opt
    case OffsetAbsent => Ok(fallback)
    case OffsetGiven(o) => Ok(o)
    case OffsetUnrecognized => Err(RangeError)
  }

  /** The same option with the rounding mode negated; absent stays absent (its default, trunc, is self-negating). */
  function NegatedModeOption(opt: ModeOption): ModeOption
  {
    if opt.ModeGiven? then ModeGiven(NegateRoundingMode(opt.mode)) else opt
  }

  /** What until/since read from their options, before since negates the mode. */
  datatype DifferenceSettings = DifferenceSettings(
    smallestUnit: Unit, largestUnit: Unit, roundingMode: RoundingMode, roundingIncrement: int)

  /**
   * The option reading shared by the until/since builtins: smallestUnit
   * (default nanosecond), largestUnit (default and "auto" give
   * `defaultLargest(smallest)`), their order, roundingMode (default trunc) and a
   * roundingIncrement below the smallest unit's maximum that divides it.
   */
  function GetDifferenceSettings(options: Options, disallowed: set<Unit>, defaultLargest: Unit -> Unit): (r: Result<DifferenceSettings>)
    ensures r.Ok? && Nanosecond !in disallowed ==> r.value.smallestUnit !in disallowed
    ensures r.Ok? && options.largestUnit.UnitGiven? ==> r.value.largestUnit !in disallowed
    ensures r.Ok? ==> UnitRank(r.value.largestUnit) <= UnitRank(r.value.smallestUnit)
    ensures r.Ok? ==> r.value.roundingIncrement >= 1
    ensures r.Ok? && !IsDateUnit(r.value.smallestUnit) ==>
              var max := MaximumDurationRoundingIncrement(r.value.smallestUnit).value;
              r.value.roundingIncrement < max && max % r.value.roundingIncrement == 0
    ensures r.Ok? && options.smallestUnit.UnitAbsent? ==> r.value.smallestUnit == Nanosecond
    ensures r.Ok? && (options.largestUnit.UnitAbsent? || options.largestUnit.UnitAuto?) ==>
              r.value.largestUnit == defaultLargest(r.value.smallestUnit)
    ensures r.Ok? && options.roundingMode.ModeAbsent? ==> r.value.roundingMode == Trunc
    ensures r.Ok? && options.roundingIncrement.None? ==> r.value.roundingIncrement == 1
    ensures options == NoOptions && Nanosecond !in disallowed ==>
              r == Ok(DifferenceSettings(Nanosecond, defaultLargest(Nanosecond), Trunc, 1))
    ensures r.Err? ==> r.error == RangeError
  {
    match ToSmallestUnit(options.smallestUnit, disallowed, Some(Nanosecond))
    case Err(e) => Err(e)
    case Ok(smallestOpt) =>
      var smallest := smallestOpt.value;
      match ToLargestUnit(options.largestUnit, disallowed, defaultLargest(smallest))
      case Err(e) => Err(e)
      case Ok(largest) =>
        if ValidateUnitRange(largest, smallest).Err? then Err(RangeError)
        else
          match ToRoundingMode(options.roundingMode, Trunc)
          case Err(e) => Err(e)
          case Ok(mode) =>
            match ToRoundingIncrement(options.roundingIncrement, MaximumDurationRoundingIncrement(smallest), false)
            case Err(e) => Err(e)
            case Ok(increment) => Ok(DifferenceSettings(smallest, largest, mode, increment))
  }

  /**
   * Negating the roundingMode option negates the mode of the settings and changes
   * nothing else, errors included: since reads its options exactly as until reads
   * the options with the opposite mode.
   */
  lemma SettingsWithNegatedMode(options: Options, disallowed: set<Unit>, defaultLargest: Unit -> Unit)
    ensures var r := GetDifferenceSettings(options, disallowed, defaultLargest);
            var n := GetDifferenceSettings(options.(roundingMode := NegatedModeOption(options.roundingMode)), disallowed, defaultLargest);
            (r.Ok? <==> n.Ok?) && (r.Err? ==> n == r) &&
            (r.Ok? ==> n.value == r.value.(roundingMode := NegateRoundingMode(r.value.roundingMode)))
  {
  }

  /** The `roundTo` argument of round: undefined, a string (the smallest unit), an object, or another value. */
  datatype RoundToArg = RoundToUndefined | RoundToString(smallestUnit: UnitOption) | RoundToObject(options: Options) | RoundToOther

  /**
   * The options object round reads: undefined and non-objects are TypeErrors, a
   * string stands for a bag holding only smallestUnit.
   */
  function RoundToOptions(arg: RoundToArg): (r: Result<Options>)
    ensures r.Err? <==> arg.RoundToUndefined? || arg.RoundToOther?
    ensures r.Err? ==> r.error == TypeError
    ensures arg.RoundToString? ==> r == Ok(NoOptions.(smallestUnit := arg.smallestUnit))
    ensures arg.RoundToObject? ==> r == Ok(arg.options)
  {
    match arg
    case RoundToUndefined => Err(TypeError)
    case RoundToString(u) => Ok(NoOptions.(smallestUnit := u))
    case RoundToObject(o) => Ok(o)
    case RoundToOther => Err(TypeError)
  }

  /** The smallest unit and rounding mode round reads, and the bag its increment comes from. */
  datatype RoundSettings = RoundSettings(options: Options, smallestUnit: Unit, roundingMode: RoundingMode)

  /**
   * The option reading shared by the round builtins: smallestUnit is required
   * (RangeError when missing) and must not be disallowed; roundingMode defaults
   * to halfExpand.
   */
  function GetRoundSettings(arg: RoundToArg, disallowed: set<Unit>): (r: Result<RoundSettings>)
    ensures arg.RoundToUndefined? || arg.RoundToOther? ==> r == Err(TypeError)
    ensures arg.RoundToObject? && arg.options.smallestUnit.UnitAbsent? ==> r == Err(RangeError)
    ensures r.Ok? ==> r.value.smallestUnit !in disallowed
    ensures r.Ok? ==> RoundToOptions(arg) == Ok(r.value.options)
    ensures r.Ok? ==> r.value.options.smallestUnit == UnitGiven(r.value.smallestUnit)
    ensures r.Ok? ==> r.value.roundingMode == if r.value.options.roundingMode.ModeGiven? then r.value.options.roundingMode.mode else HalfExpand
    ensures arg.RoundToString? && arg.smallestUnit.UnitGiven? && arg.smallestUnit.unit !in disallowed ==>
              r == Ok(RoundSettings(NoOptions.(smallestUnit := arg.smallestUnit), arg.smallestUnit.unit, HalfExpand))
  {
    match RoundToOptions(arg)
    case Err(e) => Err(e)
    case Ok(options) =>
      match ToSmallestUnit(options.smallestUnit, disallowed, None)
      case Err(e) => Err(e)
      case Ok(smallest) =>
        if smallest.None? then Err(RangeError)
        else
          match ToRoundingMode(options.roundingMode, HalfExpand)
          case Err(e) => Err(e)
          case Ok(mode) => Ok(RoundSettings(options, smallest.value, mode))
  }

  /** Year, month, week and day, the units a time-only value cannot take. */
  const YearMonthWeekDay: set<Unit> := {Year, Month, Week, Day}

  /**
   * With a time unit given as largestUnit, forbidding the date units changes
   * nothing: a date smallest unit is a RangeError either way, because it is
   * disallowed or because it is larger than the largest unit.
   */
  lemma TimeLargestUnitMakesDateUnitsIrrelevant(options: Options, u: Unit, defaultOne: Unit -> Unit, defaultTwo: Unit -> Unit)
    requires options.largestUnit == UnitGiven(u) && !IsDateUnit(u)
    ensures GetDifferenceSettings(options, {}, defaultOne) == GetDifferenceSettings(options, YearMonthWeekDay, defaultTwo)
  {
    if options.smallestUnit.UnitGiven? && IsDateUnit(options.smallestUnit.unit) {
      assert ValidateUnitRange(u, options.smallestUnit.unit).Err?;
    }
  }
}
