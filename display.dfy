/**
 * `appadmm_transform_display_data` (protocol.c): the meaning of one
 * display reading: sigrok unit, measured quantity, flags, digits and the
 * value, or, for a word code, an infinite value and the notice it raises.
 * The floating-point factor is kept exact as a multiplier and a
 * power-of-ten exponent; IEEE INFINITY is the tag `Infinite`.
 */
module Transform {
  import opened Bytes
  import opened Catalog
  import Codec

  /** `appadmm_channel_e`. */
  datatype Channel = ChannelInvalid | Primary | Secondary

  /** The sigrok units the interpreter produces. */
  datatype SrUnit = Unitless | Volt | Ampere | DecibelVolt | DecibelMw | Farad | Ohm | Percentage
                  | Hertz | Celsius | Fahrenheit | Second | Watt

  /** The sigrok measured quantities; `NoQuantity` is the initial 0. */
  datatype Quantity = NoQuantity | Voltage | Current | Power | Capacitance | Resistance | Difference
                    | Frequency | Temperature | Time | PowerFactor | Continuity | Count

  /** The sigrok `SR_MQFLAG_*` bits the interpreter sets. */
  datatype Flag = Max | Min | Avg | Hold | Relative | Reference | Autorange | Ac | Dc | Rms | Diode

  /**
   * A sample value: `reading * multiplier * 10^exponent`, or infinity.
   */
  datatype Value = Scaled(reading: int, multiplier: nat, exponent: int) | Infinite

  /** The `°C` / `°F` suffix of the DEF message. */
  datatype Suffix = NoSuffix | SuffixC | SuffixF

  /** What a word code makes the driver log: an error, nothing, or a message. */
  datatype Notice = Quiet | ErrorNotice(word: int) | MessageNotice(word: int, suffix: Suffix)

  /** One analog sample as sent to the session. */
  datatype Analog = Analog(unit: SrUnit, mq: Quantity, flags: set<Flag>, digits: int, value: Value, notice: Notice)

  /**
   * Where the function code comes from: a live Read Display answer (with
   * its auto-range bit) or, for a stored record, the display's own
   * `log_function_code`.
   */
  datatype Source = Live(functionCode: nat, autoRange: nat) | Stored(logFunctionCode: nat)

  function FunctionCode(s: Source): nat
  {
    match s
    case Live(fn, _) => fn
    case Stored(fn) => fn
  }

  // ---------------------------------------------------------------------
  // Word codes (`appa_b_is_wordcode` and `appa_b_is_wordcode_dash`)
  // ---------------------------------------------------------------------

  /** A reading at or above the word-code table minimum is a word code. */
  predicate IsWordcode(reading: int)
  {
    reading >= WordcodeTableMin
  }

  /** A reading goes down the numeric path unless it is a non-dash word code. */
  predicate IsNumeric(reading: int)
  {
    !IsWordcode(reading) || IsDash(reading)
  }

  // ---------------------------------------------------------------------
  // The tables of the interpreter
  // ---------------------------------------------------------------------

  /** Digits after the dot: DOT_NONE .. DOT_9_9999, anything else as none. */
  function DotDigits(dot: nat): (d: nat)
    ensures d <= DotMax
    ensures dot <= DotMax ==> d == dot
  {
    if dot <= DotMax then dot else 0
  }

  /**
   * What a unit code contributes: the sigrok unit and quantity, and the
   * unit factor `multiplier * 10^exponent` (the `digits` shift is
   * `-exponent`, except for minutes, whose factor 60 leaves it alone).
   */
  datatype UnitScale = UnitScale(unit: SrUnit, mq: Quantity, multiplier: nat, exponent: int)

  function UnitOf(unit: nat): (u: UnitScale)
    ensures u.multiplier == (if unit == UnitMin then 60 else 1)
    ensures u.mq == NoQuantity <==> unit == UnitNone || unit > UnitMax
    ensures -9 <= u.exponent <= 9
  {
    if unit == UnitMV then UnitScale(Volt, Voltage, 1, -3)
    else if unit == UnitV then UnitScale(Volt, Voltage, 1, 0)
    else if unit == UnitUA then UnitScale(Ampere, Current, 1, -6)
    else if unit == UnitMA then UnitScale(Ampere, Current, 1, -3)
    else if unit == UnitA then UnitScale(Ampere, Current, 1, 0)
    else if unit == UnitDB then UnitScale(DecibelVolt, Power, 1, 0)
    else if unit == UnitDBM then UnitScale(DecibelMw, Power, 1, 0)
    else if unit == UnitNF then UnitScale(Farad, Capacitance, 1, -9)
    else if unit == UnitUF then UnitScale(Farad, Capacitance, 1, -6)
    else if unit == UnitMF then UnitScale(Farad, Capacitance, 1, -3)
    else if unit == UnitGOhm then UnitScale(Ohm, Resistance, 1, 9)
    else if unit == UnitMOhm then UnitScale(Ohm, Resistance, 1, 6)
    else if unit == UnitKOhm then UnitScale(Ohm, Resistance, 1, 3)
    else if unit == UnitOhm then UnitScale(Ohm, Resistance, 1, 0)
    else if unit == UnitPercent then UnitScale(Percentage, Difference, 1, 0)
    else if unit == UnitMHz then UnitScale(Hertz, Frequency, 1, 6)
    else if unit == UnitKHz then UnitScale(Hertz, Frequency, 1, 3)
    else if unit == UnitHz then UnitScale(Hertz, Frequency, 1, 0)
    else if unit == UnitDegC then UnitScale(Celsius, Temperature, 1, 0)
    else if unit == UnitDegF then UnitScale(Fahrenheit, Temperature, 1, 0)
    else if unit == UnitNs then UnitScale(Second, Time, 1, -9)
    else if unit == UnitUs then UnitScale(Second, Time, 1, -6)
    else if unit == UnitMs then UnitScale(Second, Time, 1, -3)
    else if unit == UnitSec then UnitScale(Second, Time, 1, 0)
    else if unit == UnitMin then UnitScale(Second, Time, 60, 0)
    else if unit == UnitKW then UnitScale(Watt, Power, 1, 3)
    else if unit == UnitPF then UnitScale(Unitless, PowerFactor, 1, 0)
    else UnitScale(Unitless, NoQuantity, 1, 0)
  }

  /** The data-content flags; HOLD only on the secondary display. */
  function ContentFlags(content: nat, channel: Channel): set<Flag>
  {
    if content == ContentMaximum then {Max}
    else if content == ContentMinimum then {Min}
    else if content == ContentAverage then {Avg}
    else if content == ContentPeakHoldMax then (if channel == Secondary then {Max, Hold} else {Max})
    else if content == ContentPeakHoldMin then (if channel == Secondary then {Min, Hold} else {Min})
    else if content == ContentAutoHold || content == ContentHold then (if channel == Secondary then {Hold} else {})
    else if content == ContentRelDelta || content == ContentRelPercent then
      (if channel != Secondary then {Relative} else {Reference})
    else {}
  }

  /** The AC function codes: AC and RMS, for amperes, volts and watts. */
  const AcFunctions: set<nat> := {FnPeakHoldUA, FnAcUA, FnAcMV, FnAcMA, FnLpfMV, FnLpfMA, FnAcV, FnAcA,
                                  FnLpfV, FnLpfA, FnLozAcV, FnAcW, FnLozLpfV, FnVHarm, FnInrush, FnAHarm,
                                  FnFlexInrush, FnFlexAHarm, FnAcUAHfr, FnAcAHfr, FnAcMAHfr, FnAcUAHfr2,
                                  FnAcVHfr, FnAcMVHfr, FnAcVPv, FnAcVPvHfr}

  /** The DC function codes: DC, whatever the unit (FLEX_AC_A among them). */
  const DcFunctions: set<nat> := {FnDcUA, FnDcMV, FnDcMA, FnDcV, FnDcA, FnDcAOut, FnDcAOutSlowLinear,
                                  FnDcAOutFastLinear, FnDcAOutSlowStep, FnDcAOutFastStep, FnLoopPower,
                                  FnLozDcV, FnDcW, FnFlexAcA, FnFlexLpfA, FnFlexPeakHoldA, FnDcVPv}

  /** The AC+DC function codes: AC, DC and RMS, for amperes, volts and watts. */
  const AcDcFunctions: set<nat> := {FnAcDcMV, FnAcDcMA, FnAcDcV, FnAcDcA, FnVoltSense, FnLozAcDcV, FnAcDcVPv}

  /** The lists are `case` labels of one `switch`, so they share no code. */
  lemma AcListDisjoint(fn: nat)
    requires fn in AcFunctions
    ensures fn !in DcFunctions && fn !in AcDcFunctions && fn != FnContinuity && fn != FnDiode
  {
  }

  lemma DcListDisjoint(fn: nat)
    requires fn in DcFunctions
    ensures fn !in AcDcFunctions && fn != FnContinuity && fn != FnDiode
  {
  }

  /** The units the AC flags apply to. */
  predicate Alternating(unit: SrUnit)
  {
    unit == Ampere || unit == Volt || unit == Watt
  }

  /** The function-code flags, given the sigrok unit already chosen. */
  function FunctionFlags(fn: nat, unit: SrUnit): set<Flag>
  {
    if fn in AcFunctions then (if Alternating(unit) then {Ac, Rms} else {})
    else if fn in DcFunctions then {Dc}
    else if fn == FnDiode then {Diode, Dc}
    else if fn in AcDcFunctions then (if Alternating(unit) then {Ac, Dc, Rms} else {})
    else {}
  }

  /** The notice a word code raises; DEF names the temperature unit. */
  function NoticeOf(reading: int, unit: nat): Notice
  {
    if reading in {WordBatt, WordHaz, WordFuse, WordProbe, WordEr, WordEr1, WordEr2, WordEr3} then ErrorNotice(reading)
    else if reading in {WordSpace, WordDash, WordDash1, WordDash2} then Quiet
    else if reading == WordDef then
      MessageNotice(reading, if unit == UnitDegC then SuffixC else if unit == UnitDegF then SuffixF else NoSuffix)
    else MessageNotice(reading, NoSuffix)
  }

  // ---------------------------------------------------------------------
  // The interpreter
  // ---------------------------------------------------------------------

  /**
   * The sample before the final check: the numeric path for numbers and
   * dashes, the word-code path (infinite, quantity unset) otherwise. A
   * number is scaled unless the display shows an overload; an overload
   * or a dash reads as infinite.
   */
  function Interpret(x: Codec.DisplayData, channel: Channel, source: Source): (a: Analog)
    ensures IsNumeric(x.reading) ==> a.notice == Quiet
    ensures !IsNumeric(x.reading) ==> a.unit == Unitless && a.mq == NoQuantity && a.flags == {} && a.value.Infinite?
    ensures a.value.Scaled? <==> IsNumeric(x.reading) && x.overload != Overload && !IsDash(x.reading)
  {
    if IsNumeric(x.reading) then
      var u := UnitOf(x.unit);
      var fn := FunctionCode(source);
      var autorange := if source.Live? && source.autoRange == AutoRange then {Autorange} else {};
      var digits := DotDigits(x.dot) - u.exponent;
      Analog(u.unit, if fn == FnContinuity then Continuity else u.mq,
             ContentFlags(x.dataContent, channel) + autorange + FunctionFlags(fn, u.unit),
             digits,
             if x.overload == Overload || IsDash(x.reading) then Infinite
             else Scaled(x.reading, u.multiplier, u.exponent - DotDigits(x.dot)),
             Quiet)
    else
      Analog(Unitless, NoQuantity, {}, 0, Infinite, NoticeOf(x.reading, x.unit))
  }

  /**
   * `appadmm_transform_display_data`: SR_ERR_BUG for the invalid channel;
   * otherwise the interpreted sample, replaced by an infinite unitless
   * COUNT without flags or digits when no quantity was found.
   */
  function TransformDisplayData(x: Codec.DisplayData, channel: Channel, source: Source): (r: Result<Analog>)
    ensures r.Failure? <==> channel == ChannelInvalid
    ensures r.Failure? ==> r.error == ErrBug
    ensures r.Success? ==> r.value.mq != NoQuantity
  {
    if channel == ChannelInvalid then Failure(ErrBug)
    else
      var a := Interpret(x, channel, source);
      if a.mq == NoQuantity then Success(Analog(Unitless, Count, {}, 0, Infinite, a.notice))
      else Success(a)
  }

  /** A sample with no quantity after interpretation. */
  predicate Unmeasured(x: Codec.DisplayData, source: Source)
  {
    !IsNumeric(x.reading)
    || (UnitOf(x.unit).mq == NoQuantity && FunctionCode(source) != FnContinuity)
  }

  /**
   * The forced COUNT sample is produced exactly for word codes and for a
   * missing unit outside the continuity function.
   */
  lemma CountIffUnmeasured(x: Codec.DisplayData, channel: Channel, source: Source)
    requires channel != ChannelInvalid
    ensures var a := TransformDisplayData(x, channel, source).value;
      Unmeasured(x, source) <==> a.mq == Count && a.unit == Unitless && a.flags == {} && a.digits == 0 && a.value == Infinite
  {
  }

  /**
   * Scaling: a measured number is `reading * 10^-digits`, except in
   * minutes, where it is `reading * 60 * 10^-digits` with the digits of
   * the dot alone.
   */
  lemma ScaleMatchesDigits(x: Codec.DisplayData, channel: Channel, source: Source)
    requires channel != ChannelInvalid
    requires TransformDisplayData(x, channel, source).value.value.Scaled?
    ensures var a := TransformDisplayData(x, channel, source).value;
      && a.value.reading == x.reading
      && a.value.exponent == -a.digits
      && (x.unit == UnitMin ==> a.value.multiplier == 60 && a.digits == DotDigits(x.dot))
      && (x.unit != UnitMin ==> a.value.multiplier == 1)
      && -9 <= a.digits <= 13
  {
  }

  /**
   * The value is finite exactly for a measured reading that is neither
   * overloaded nor a word code nor a dash.
   */
  lemma InfiniteIff(x: Codec.DisplayData, channel: Channel, source: Source)
    requires channel != ChannelInvalid
    ensures TransformDisplayData(x, channel, source).value.value.Infinite?
      <==> Unmeasured(x, source) || x.overload == Overload || IsWordcode(x.reading)
  {
    if !Unmeasured(x, source) && IsDash(x.reading) {
      DashesAreWordcodes(x.reading);
    }
  }

  /** Only the live path with the auto-range bit set reports AUTORANGE. */
  lemma AutorangeOnlyLive(x: Codec.DisplayData, channel: Channel, source: Source)
    requires channel != ChannelInvalid
    ensures Autorange in TransformDisplayData(x, channel, source).value.flags
      <==> !Unmeasured(x, source) && source.Live? && source.autoRange == AutoRange
  {
  }

  /**
   * AC and RMS come together, only for amperes, volts and watts, and only
   * from the AC and AC+DC function lists.
   */
  lemma AcFlagsNeedAlternatingUnit(x: Codec.DisplayData, channel: Channel, source: Source)
    requires channel != ChannelInvalid
    ensures var a := TransformDisplayData(x, channel, source).value;
      && (Ac in a.flags <==> Rms in a.flags)
      && (Ac in a.flags <==> !Unmeasured(x, source) && Alternating(a.unit)
                              && FunctionCode(source) in AcFunctions + AcDcFunctions)
  {
    if IsNumeric(x.reading) {
      FunctionFlagsAc(FunctionCode(source), UnitOf(x.unit).unit);
      assert Ac !in ContentFlags(x.dataContent, channel) && Rms !in ContentFlags(x.dataContent, channel);
    }
  }

  /** AC and RMS in the function-code flags alone. */
  lemma FunctionFlagsAc(fn: nat, unit: SrUnit)
    ensures Ac in FunctionFlags(fn, unit) <==> Rms in FunctionFlags(fn, unit)
    ensures Ac in FunctionFlags(fn, unit) <==> Alternating(unit) && fn in AcFunctions + AcDcFunctions
  {
    if fn in AcFunctions {
      AcListDisjoint(fn);
    } else if fn in DcFunctions {
      DcListDisjoint(fn);
    }
  }

  /**
   * HOLD appears only on the secondary display; RELATIVE only on the
   * primary, and REFERENCE only on the secondary.
   */
  lemma HoldOnlySecondary(x: Codec.DisplayData, channel: Channel, source: Source)
    requires channel != ChannelInvalid
    ensures var a := TransformDisplayData(x, channel, source).value;
      && (Hold in a.flags ==> channel == Secondary)
      && (Relative in a.flags ==> channel == Primary)
      && (Reference in a.flags ==> channel == Secondary)
  {
  }

  /**
   * Word-code severity: BATT, HAZ, FUSE, PROBE and ER..ER3 are errors,
   * SPACE and the dashes raise nothing, DEF carries the °C/°F suffix only
   * for those units, every other word code is a message.
   */
  lemma WordcodeSeverity(x: Codec.DisplayData, channel: Channel, source: Source)
    requires channel != ChannelInvalid && !IsNumeric(x.reading)
    ensures var n := TransformDisplayData(x, channel, source).value.notice;
      && (n.ErrorNotice? <==> x.reading in {WordBatt, WordHaz, WordFuse, WordProbe, WordEr, WordEr1, WordEr2, WordEr3})
      && (n.Quiet? <==> x.reading == WordSpace)
      && (n.MessageNotice? && n.suffix != NoSuffix <==> x.reading == WordDef && (x.unit == UnitDegC || x.unit == UnitDegF))
  {
  }

  /** Numbers and dashes raise no notice. */
  lemma NumericIsQuiet(x: Codec.DisplayData, channel: Channel, source: Source)
    requires channel != ChannelInvalid && IsNumeric(x.reading)
    ensures TransformDisplayData(x, channel, source).value.notice == Quiet
  {
  }
}
