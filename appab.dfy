/**
 * The standalone APPA B-series parser (src/dmm/appa_b.c): its own
 * checksum, 24-bit reading decoder, word-code names, request writers,
 * display-response reader, frame validator and the parser that turns one
 * display of a frame into a sigrok reading. Its word-code, unit, dot,
 * data-content and function-code values are those of the hardware
 * driver, so the `Catalog` constants serve both.
 */
module AppaB {
  import opened Bytes
  import opened Catalog
  import opened Transform
  import Transport
  import Codec

  const StartByte: byte := 0x55
  const HeaderSize: nat := 4
  const ChecksumSize: nat := 1
  const ReadDisplayResponseLength: nat := 12
  const ReadInformationResponseLength: nat := 52
  const ReadRequestLength: nat := 0

  /** `APPA_B_PAYLOAD_LENGTH`: header and data, without the checksum. */
  function PayloadLength(dataLength: int): (n: int)
    ensures n == dataLength + 4
  {
    dataLength + HeaderSize
  }

  /** `APPA_B_FRAME_LENGTH`: header, data and checksum. */
  function FrameLength(dataLength: int): (n: int)
    ensures n == dataLength + 5 && n == PayloadLength(dataLength) + 1
  {
    dataLength + HeaderSize + ChecksumSize
  }

  /** A display frame is 17 bytes, the hardware driver's packet size. */
  lemma DisplayFrameLength()
    ensures FrameLength(ReadDisplayResponseLength) == PacketSize
    ensures PayloadLength(ReadDisplayResponseLength) == 16
  {
  }

  // ---------------------------------------------------------------------
  // Readings and word codes
  // ---------------------------------------------------------------------

  /** A 32-bit pattern read as a C `int`. */
  function Int32(pattern: int): int
    requires 0 <= pattern < 0x1_0000_0000
  {
    if pattern >= 0x8000_0000 then pattern - 0x1_0000_0000 else pattern
  }

  /**
   * `appa_b_decode_reading`: `b0 | b1 << 8 | b2 << 16`, with the top byte
   * filled with ones when bit 7 of `b2` is set. The sign-filled reading
   * is the signed 24-bit little-endian value of the three bytes, so it
   * lies in [-2^23, 2^23).
   */
  function DecodeReading(b0: byte, b1: byte, b2: byte): (r: int)
    ensures r == I24le([b0, b1, b2], 0)
    ensures -0x80_0000 <= r < 0x80_0000
  {
    var fill := if b2 as nat / 128 == 1 then 0xff else 0;
    Int32(b0 as nat + 256 * b1 as nat + 65536 * b2 as nat + 0x100_0000 * fill)
  }

  /** The extremes: all ones is -1, a lone top bit is -2^23. */
  lemma DecodeReadingExamples()
    ensures DecodeReading(0xff, 0xff, 0xff) == -1
    ensures DecodeReading(0x00, 0x00, 0x80) == -0x80_0000
    ensures DecodeReading(0xff, 0xff, 0x7f) == 0x7f_ffff
  {
  }

  const NotAvailable: string := "N/A"

  /**
   * `appa_b_wordcode_name`: the display text of a word code. SPACE alone
   * shows nothing, and "N/A" names exactly the values that are not word
   * codes.
   */
  function WordcodeName(w: int): (r: string)
    ensures r == NotAvailable <==> !DefinedWordcode(w)
    ensures r == "" <==> w == WordSpace
  {
    if w == WordSpace then ""
    else if w == WordFull then "Full"
    else if w == WordBeep then "Beep"
    else if w == WordApo then "Auto Power-Off"
    else if w == WordBLit then "Backlight"
    else if w == WordHaz then "Hazard"
    else if w == WordOn then "On"
    else if w == WordOff then "Off"
    else if w == WordReset then "Reset"
    else if w == WordStart then "Start"
    else if w == WordView then "View"
    else if w == WordPause then "Pause"
    else if w == WordFuse then "Fuse"
    else if w == WordProbe then "Probe"
    else if w == WordDef then "Definition"
    else if w == WordClr then "Clr"
    else if w == WordEr then "Er"
    else if w == WordEr1 then "Er1"
    else if w == WordEr2 then "Er2"
    else if w == WordEr3 then "Er3"
    else if w == WordDash then "-----"
    else if w == WordDash1 then "-"
    else if w == WordTest then "Test"
    else if w == WordDash2 then "--"
    else if w == WordBatt then "Battery"
    else if w == WordDislt then "diSLt"
    else if w == WordNoise then "Noise"
    else if w == WordFiltr then "Filter"
    else if w == WordPass then "PASS"
    else if w == WordNull then "null"
    else if w == Word0to20 then "0 - 20"
    else if w == Word4to20 then "4 - 20"
    else if w == WordRate then "Rate"
    else if w == WordSave then "Save"
    else if w == WordLoad then "Load"
    else if w == WordYes then "Yes"
    else if w == WordSend then "Send"
    else if w == WordAhold then "Auto Hold"
    else if w == WordAuto then "Auto"
    else if w == WordCntin then "Continuity"
    else if w == WordCal then "CAL"
    else if w == WordVersion then "Version"
    else if w == WordOl then "OL"
    else if w == WordBatFull then "FULL"
    else if w == WordBatHalf then "HALF"
    else if w == WordLo then "Lo"
    else if w == WordHi then "Hi"
    else if w == WordDigit then "Digits"
    else if w == WordRdy then "Ready"
    else if w == WordDisc then "dISC"
    else if w == WordOutf then "outF"
    else if w == WordOla then "OLA"
    else if w == WordOlv then "OLV"
    else if w == WordOlva then "OLVA"
    else if w == WordBad then "BAD"
    else if w == WordTemp then "TEMP"
    else NotAvailable
  }

  // ---------------------------------------------------------------------
  // Checksum and request writers
  // ---------------------------------------------------------------------

  /**
   * `appa_b_checksum`: 0 for a null buffer; otherwise the bytes summed
   * from the last down to the first into a `uint8_t`, none for a size
   * that is not positive.
   */
  method Checksum(data: array?<byte>, size: int) returns (cs: byte)
    requires data != null ==> size <= data.Length
    ensures data == null ==> cs == 0
    ensures data != null ==> cs == (if size > 0 then Sum8(data[..size]) else 0)
  {
    if data == null {
      return 0;
    }
    cs := 0;
    var n := size;
    while n > 0
      invariant n <= size
      invariant n > 0 ==> cs == Sum8(data[n..size])
      invariant n <= 0 ==> cs == (if size > 0 then Sum8(data[0..size]) else 0)
    {
      n := n - 1;
      assert data[n..size] == [data[n]] + data[n + 1..size];
      cs := Add8(data[n], cs);
    }
    if size > 0 {
      assert data[0..size] == data[..size];
    }
  }

  /** A request frame: start bytes, the command, length 0 and the checksum. */
  function RequestFrame(command: byte): (f: seq<byte>)
    ensures |f| == 5 && f[..4] == [StartByte, StartByte, command, 0]
    ensures f[4] == Sum8(f[..4])
  {
    var header := [StartByte, StartByte, command, 0];
    assert [StartByte, StartByte, command, 0, Sum8(header)][..4] == header;
    header + [Sum8(header)]
  }

  /** The two request frames, byte for byte. */
  lemma RequestFrames()
    ensures RequestFrame(CmdReadInformation as byte) == [0x55, 0x55, 0x00, 0x00, 0xaa]
    ensures RequestFrame(CmdReadDisplay as byte) == [0x55, 0x55, 0x01, 0x00, 0xab]
  {
    HeaderSum(0);
    HeaderSum(1);
  }

  /** The checksum of a request header: 0x55 + 0x55 + command, modulo 256. */
  lemma HeaderSum(command: byte)
    requires command < 2
    ensures Sum8([StartByte, StartByte, command, 0]) as int == 0xaa + command as int
  {
    var h := [StartByte, StartByte, command, 0];
    assert [0 as byte][1..] == [];
    assert Sum8([0]) == 0;
    assert [command, 0][1..] == [0];
    assert Sum8([command, 0]) == command;
    assert [StartByte, command, 0][1..] == [command, 0];
    assert Sum8([StartByte, command, 0]) as int == 0x55 + command as int;
    assert h[1..] == [StartByte, command, 0];
  }

  /**
   * `appa_b_write_frame_information_request` and
   * `appa_b_write_frame_display_request`: SR_ERR_ARG for a null buffer or
   * one shorter than 5; otherwise the request frame in its first 5 bytes.
   */
  method WriteRequest(buf: array?<byte>, len: int, command: byte) returns (status: Status)
    requires buf != null ==> len <= buf.Length
    modifies buf
    ensures status == Ok || status == ErrArg
    ensures status == ErrArg <==> buf == null || len < 5
    ensures buf != null && status == ErrArg ==> buf[..] == old(buf[..])
    ensures status == Ok ==> buf[..5] == RequestFrame(command) && buf[5..] == old(buf[5..])
  {
    if buf == null {
      return ErrArg;
    }
    if len < 5 {
      return ErrArg;
    }
    buf[0] := StartByte;
    buf[1] := StartByte;
    buf[2] := command;
    buf[3] := 0;
    assert buf[..4] == [StartByte, StartByte, command, 0];
    var cs := Checksum(buf, 4);
    buf[4] := cs;
    assert buf[..4] == [StartByte, StartByte, command, 0];
    assert buf[..5] == buf[..4] + [buf[4]];
    status := Ok;
  }

  method WriteInformationRequest(buf: array?<byte>, len: int) returns (status: Status)
    requires buf != null ==> len <= buf.Length
    modifies buf
    ensures status == ErrArg <==> buf == null || len < 5
    ensures status != ErrArg ==> status == Ok && buf[..5] == [0x55, 0x55, 0x00, 0x00, 0xaa]
  {
    status := WriteRequest(buf, len, CmdReadInformation as byte);
    RequestFrames();
  }

  method WriteDisplayRequest(buf: array?<byte>, len: int) returns (status: Status)
    requires buf != null ==> len <= buf.Length
    modifies buf
    ensures status == ErrArg <==> buf == null || len < 5
    ensures status != ErrArg ==> status == Ok && buf[..5] == [0x55, 0x55, 0x01, 0x00, 0xab]
  {
    status := WriteRequest(buf, len, CmdReadDisplay as byte);
    RequestFrames();
  }

  // ---------------------------------------------------------------------
  // Display response
  // ---------------------------------------------------------------------

  /** `appa_b_frame_display_reading_s`: the reading still as three bytes. */
  datatype RawReading = RawReading(b0: byte, b1: byte, b2: byte, dot: nat, unit: nat, dataContent: nat, overload: nat)

  /** `appa_b_frame_display_response_data_s`. */
  datatype DisplayResponse = DisplayResponse(functionCode: nat, autoTest: nat, rangeCode: nat, autoRange: nat,
                                             main: RawReading, sub: RawReading)

  function RawReadingAt(buf: seq<byte>, at: nat): RawReading
    requires at + 5 <= |buf|
  {
    RawReading(buf[at], buf[at + 1], buf[at + 2], Low3(buf[at + 3]), High5(buf[at + 3]),
               Low7(buf[at + 4]), High1(buf[at + 4]))
  }

  /**
   * `appa_b_read_frame_display_response`: SR_ERR_IO unless the frame
   * starts `55 55 01 0C`; otherwise the fields at bytes 4..15.
   */
  function ReadDisplayResponse(buf: seq<byte>): (r: Result<DisplayResponse>)
    requires |buf| >= 16
    ensures r.Success? <==> buf[0] == StartByte && buf[1] == StartByte
                            && buf[2] as nat == CmdReadDisplay && buf[3] as nat == ReadDisplayResponseLength
    ensures r.Failure? ==> r.error == ErrIo
  {
    if buf[0] != StartByte || buf[1] != StartByte then Failure(ErrIo)
    else if buf[2] as nat != CmdReadDisplay then Failure(ErrIo)
    else if buf[3] as nat != ReadDisplayResponseLength then Failure(ErrIo)
    else Success(DisplayResponse(Low7(buf[4]), High1(buf[4]), Low7(buf[5]), High1(buf[5]),
                                 RawReadingAt(buf, 6), RawReadingAt(buf, 11)))
  }

  /** A raw reading with its value decoded. */
  function Reading(r: RawReading): Codec.DisplayData
  {
    Codec.DisplayData(DecodeReading(r.b0, r.b1, r.b2), r.dot, r.unit, r.dataContent, r.overload)
  }

  function AsDisplay(r: DisplayResponse): Codec.Display
  {
    Codec.Display(r.functionCode, r.autoTest, r.rangeCode, r.autoRange, Reading(r.main), Reading(r.sub))
  }

  /**
   * The reader sees in a frame what the hardware driver's decoder sees in
   * the packet carrying the same 12 data bytes.
   */
  lemma ReadDisplayResponseAgrees(buf: seq<byte>, p: Transport.Packet)
    requires Codec.FullPacket(p) && p.command as nat == CmdReadDisplay && p.length == 12
    requires |buf| >= 16 && buf[..4] == [StartByte, StartByte, 1, 12] && buf[4..16] == p.data[..12]
    ensures ReadDisplayResponse(buf).Success? && Codec.DecodeReadDisplay(p).Success?
    ensures AsDisplay(ReadDisplayResponse(buf).value) == Codec.DecodeReadDisplay(p).value
  {
    assert buf[0] == StartByte && buf[1] == StartByte && buf[2] == 1 && buf[3] == 12;
    forall k | 0 <= k < 12 ensures buf[4 + k] == p.data[k] {
      assert buf[4..16][k] == p.data[..12][k];
    }
    assert I24le(p.data, 2) == I24le([buf[6], buf[7], buf[8]], 0);
    assert I24le(p.data, 7) == I24le([buf[11], buf[12], buf[13]], 0);
  }

  /** The condition `sr_appa_b_packet_valid` checks. */
  predicate ValidFrame(data: seq<byte>)
    requires |data| >= 17
  {
    Sum8(data[..16]) == data[16] && data[0] == StartByte && data[1] == StartByte
  }

  /**
   * `sr_appa_b_packet_valid`: FALSE for a null buffer; the checksum of the
   * 16 header and data bytes must match byte 16, and the frame must start
   * with two start bytes.
   */
  method PacketValid(data: array?<byte>) returns (valid: bool)
    requires data != null ==> data.Length >= 17
    ensures valid <==> data != null && ValidFrame(data[..])
  {
    if data == null {
      return false;
    }
    var frameLength := PayloadLength(ReadDisplayResponseLength);
    var checksum := Checksum(data, frameLength);
    assert data[..][..16] == data[..16];
    if checksum != data[frameLength] {
      return false;
    }
    if data[0] != StartByte || data[1] != StartByte {
      return false;
    }
    return true;
  }

  /** The 17-byte frame a meter sends for a display state. */
  function DisplayFrame(x: Codec.Display): (f: seq<byte>)
    requires Codec.DisplayFits(x)
    ensures |f| == 17
  {
    var body := [StartByte, StartByte, 1, 12] + Codec.EncodeDisplay(x).data[..12];
    body + [Sum8(body)]
  }

  /**
   * Round trip: the frame of every display state is valid and reads back
   * as that state.
   */
  lemma DisplayFrameRoundTrip(x: Codec.Display)
    requires Codec.DisplayFits(x)
    ensures ValidFrame(DisplayFrame(x))
    ensures ReadDisplayResponse(DisplayFrame(x)).Success?
    ensures AsDisplay(ReadDisplayResponse(DisplayFrame(x)).value) == x
  {
    var p := Codec.EncodeDisplay(x);
    var f := DisplayFrame(x);
    var body := [StartByte, StartByte, 1, 12] + p.data[..12];
    assert f[..16] == body;
    assert f[..4] == [StartByte, StartByte, 1, 12];
    assert f[4..16] == p.data[..12];
    ReadDisplayResponseAgrees(f, p);
    Codec.DisplayRoundTrip(x);
  }

  // ---------------------------------------------------------------------
  // Parser
  // ---------------------------------------------------------------------

  /** The AC list of the parser: the hardware driver's without HFR and PV codes. */
  const AcFunctionsB: set<nat> := {FnPeakHoldUA, FnAcUA, FnAcMV, FnAcMA, FnLpfMV, FnLpfMA, FnAcV, FnAcA,
                                   FnLpfV, FnLpfA, FnLozAcV, FnAcW, FnLozLpfV, FnVHarm, FnInrush, FnAHarm,
                                   FnFlexInrush, FnFlexAHarm}

  const DcFunctionsB: set<nat> := {FnDcUA, FnDcMV, FnDcMA, FnDcV, FnDcA, FnDcAOut, FnDcAOutSlowLinear,
                                   FnDcAOutFastLinear, FnDcAOutSlowStep, FnDcAOutFastStep, FnLoopPower,
                                   FnLozDcV, FnDcW, FnFlexAcA, FnFlexLpfA, FnFlexPeakHoldA}

  const AcDcFunctionsB: set<nat> := {FnAcDcMV, FnAcDcMA, FnAcDcV, FnAcDcA, FnVoltSense, FnLozAcDcV}

  /** The function codes the parser does not know: high-frequency rejection and PV. */
  const HfrPvFunctions: set<nat> := {FnAcUAHfr, FnAcAHfr, FnAcMAHfr, FnAcUAHfr2, FnAcVHfr, FnAcMVHfr,
                                     FnAcVPv, FnAcVPvHfr, FnDcVPv, FnAcDcVPv}

  function FunctionFlagsB(fn: nat, unit: SrUnit): set<Flag>
  {
    if fn in AcFunctionsB then (if Alternating(unit) then {Ac, Rms} else {})
    else if fn in DcFunctionsB then {Dc}
    else if fn == FnDiode then {Diode, Dc}
    else if fn in AcDcFunctionsB then (if Alternating(unit) then {Ac, Dc, Rms} else {})
    else {}
  }

  /** Outside the HFR and PV codes the parser's lists are the driver's. */
  lemma FunctionListsAgree(fn: nat)
    requires fn !in HfrPvFunctions
    ensures fn in AcFunctionsB <==> fn in AcFunctions
    ensures fn in DcFunctionsB <==> fn in DcFunctions
    ensures fn in AcDcFunctionsB <==> fn in AcDcFunctions
  {
  }

  /**
   * The HFR and PV codes get no function flags from the parser, where the
   * driver flags them for amperes, volts and watts.
   */
  lemma HfrPvUnflagged(fn: nat, unit: SrUnit)
    requires fn in HfrPvFunctions
    ensures FunctionFlagsB(fn, unit) == {}
    ensures Alternating(unit) ==> FunctionFlags(fn, unit) != {}
  {
    HfrPvOutsideListsB(fn);
    HfrPvInsideLists(fn);
  }

  lemma HfrPvOutsideListsB(fn: nat)
    requires fn in HfrPvFunctions
    ensures fn !in AcFunctionsB && fn !in DcFunctionsB && fn !in AcDcFunctionsB && fn != FnDiode
  {
  }

  lemma HfrPvInsideLists(fn: nat)
    requires fn in HfrPvFunctions
    ensures fn in AcFunctions || fn in DcFunctions || fn in AcDcFunctions
  {
  }

  /** What the caller's analog meaning holds before the parse. */
  const Blank: Analog := Analog(Unitless, NoQuantity, {}, 0, Infinite, Quiet)

  /**
   * The numeric path of the parse into the caller's meaning `prior`: the
   * flags are added to the existing ones, unit and digits are set, and an
   * unknown unit keeps the prior quantity.
   */
  function NumericParse(prior: Analog, x: Codec.DisplayData, functionCode: nat, autoRange: nat, isSub: bool): Analog
  {
    var u := UnitOf(x.unit);
    var content := prior.flags + ContentFlags(x.dataContent, if isSub then Secondary else Primary);
    var ranged := if autoRange == AutoRange then content + {Autorange} else content;
    var flags := ranged + FunctionFlagsB(functionCode, u.unit);
    var mq := if functionCode == FnContinuity then Continuity else if u.mq == NoQuantity then prior.mq else u.mq;
    Analog(u.unit, mq, flags, DotDigits(x.dot) - u.exponent,
           if x.overload == Overload || IsDash(x.reading) then Infinite
           else Scaled(x.reading, u.multiplier, u.exponent - DotDigits(x.dot)),
           Quiet)
  }

  /**
   * The parse of one display into the caller's meaning `prior`: numbers
   * and dashes take the numeric path; any other word code changes nothing
   * but the value. No COUNT fallback follows.
   */
  function Parsed(prior: Analog, d: DisplayResponse, isSub: bool): Analog
  {
    var x := Reading(if isSub then d.sub else d.main);
    if IsNumeric(x.reading) then NumericParse(prior, x, d.functionCode, d.autoRange, isSub)
    else Analog(prior.unit, prior.mq, prior.flags, prior.digits, Infinite, NoticeOf(x.reading, x.unit))
  }

  /**
   * From a blank meaning, the parser reads a display as the hardware
   * driver's interpreter does (before its COUNT fallback), for every
   * function code but the HFR and PV ones.
   */
  lemma ParseAgreesWithTransform(d: DisplayResponse, isSub: bool)
    requires d.functionCode !in HfrPvFunctions
    ensures Parsed(Blank, d, isSub)
      == Interpret(Reading(if isSub then d.sub else d.main), if isSub then Secondary else Primary,
                   Live(d.functionCode, d.autoRange))
  {
    FunctionListsAgree(d.functionCode);
  }

  /** `sr_analog_meaning` as the parser updates it. */
  class Meaning {
    var unit: SrUnit
    var mq: Quantity
    var mqflags: set<Flag>
    var digits: int

    /** A meaning just initialised: unitless, no quantity, no flags. */
    constructor ()
      ensures unit == Unitless && mq == NoQuantity && mqflags == {} && digits == 0
    {
      unit := Unitless;
      mq := NoQuantity;
      mqflags := {};
      digits := 0;
    }

    function State(value: Value, notice: Notice): Analog
      reads this
    {
      Analog(unit, mq, mqflags, digits, value, notice)
    }
  }

  /** `appa_b_info`: which display the next parse reads. */
  class Info {
    var chIdx: int

    constructor ()
      ensures chIdx == 0
    {
      chIdx := 0;
    }
  }

  /** The numeric path of `sr_appa_b_parse`, updating `meaning` step by step. */
  method ParseNumeric(x: Codec.DisplayData, functionCode: nat, autoRange: nat, isSub: bool, meaning: Meaning)
    returns (val: Value)
    modifies meaning
    ensures meaning.State(val, Quiet) == NumericParse(old(meaning.State(Infinite, Quiet)), x, functionCode, autoRange, isSub)
  {
    ghost var expected := NumericParse(meaning.State(Infinite, Quiet), x, functionCode, autoRange, isSub);
    var u := UnitOf(x.unit);
    meaning.mqflags := meaning.mqflags + ContentFlags(x.dataContent, if isSub then Secondary else Primary);
    if autoRange == AutoRange {
      meaning.mqflags := meaning.mqflags + {Autorange};
    }
    meaning.unit := u.unit;
    if u.mq != NoQuantity {
      meaning.mq := u.mq;
    }
    meaning.mqflags := meaning.mqflags + FunctionFlagsB(functionCode, meaning.unit);
    if functionCode == FnContinuity {
      meaning.mq := Continuity;
    }
    meaning.digits := DotDigits(x.dot) - u.exponent;
    if x.overload == Overload || IsDash(x.reading) {
      val := Infinite;
    } else {
      val := Scaled(x.reading, u.multiplier, u.exponent - DotDigits(x.dot));
    }
    assert meaning.unit == expected.unit && meaning.mq == expected.mq;
    assert meaning.mqflags == expected.flags;
  }

  /**
   * `sr_appa_b_parse`: SR_ERR_DATA, with nothing changed, when the frame
   * does not read as a display response; otherwise the display selected
   * by `ch_idx == 1` is parsed into `meaning`, the value is returned, and
   * `ch_idx` moves on by one.
   */
  method Parse(data: array<byte>, meaning: Meaning, info: Info) returns (status: Status, val: Value, notice: Notice)
    requires data.Length >= 16
    modifies meaning, info
    ensures var r := ReadDisplayResponse(data[..16]);
      && (r.Failure? ==> status == ErrData && unchanged(meaning, info))
      && (r.Success? ==> && status == Ok
                         && info.chIdx == old(info.chIdx) + 1
                         && meaning.State(val, notice)
                            == Parsed(old(meaning.State(Infinite, Quiet)), r.value, old(info.chIdx) == 1))
  {
    var isSub := info.chIdx == 1;
    var response := ReadDisplayResponse(data[..16]);
    if response.Failure? {
      return ErrData, Infinite, Quiet;
    }
    var d := response.value;
    var r := if !isSub then d.main else d.sub;
    var raw := DecodeReading(r.b0, r.b1, r.b2);
    var x := Reading(r);
    if !IsWordcode(raw) || IsDash(raw) {
      val := ParseNumeric(x, d.functionCode, d.autoRange, isSub, meaning);
      notice := Quiet;
    } else {
      val := Infinite;
      notice := NoticeOf(raw, r.unit);
    }
    info.chIdx := info.chIdx + 1;
    status := Ok;
  }
}
