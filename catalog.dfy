/**
 * The frame catalog of the APPA protocol (src/hardware/appa-dmm/protocol.h,
 * and the size tables shared by packet.h and protocol_packet.h): command,
 * model, word-code, unit, dot, data-content and function codes, and the
 * payload size each command's request and response carry.
 */
module Catalog {
  import opened Bytes

  const FrameHeaderSize: nat := 4
  const FrameChecksumSize: nat := 1
  const FrameMaxDataSize: nat := 64
  const FrameMaxSize: nat := FrameMaxDataSize + FrameHeaderSize + FrameChecksumSize
  /** Bytes of a complete read-display frame, the size the driver reads. */
  const PacketSize: nat := 17
  /** Number of display channels: main and sub. */
  const DisplayCount: nat := 2
  const FrameStartByte: nat := 0x55
  /** Readings at or above this value are word codes, not numbers. */
  const WordcodeTableMin: int := 0x700000

  // Commands
  const CmdReadInformation: nat := 0x00
  const CmdReadDisplay: nat := 0x01
  const CmdReadProtocolVersion: nat := 0x03
  const CmdReadBatteryLife: nat := 0x04
  const CmdWriteUartConfiguration: nat := 0x05
  const CmdCalReading: nat := 0x10
  const CmdReadMemory: nat := 0x1a
  const CmdReadHarmonicsData: nat := 0x1b
  const CmdFailure: nat := 0x70
  const CmdSuccess: nat := 0x7f
  const CmdCalEnter: nat := 0x80
  const CmdCalWriteFunctionCode: nat := 0x85
  const CmdCalWriteRangeCode: nat := 0x87
  const CmdCalWriteMemory: nat := 0x8a
  const CmdCalExit: nat := 0x8f
  const CmdOtaEnter: nat := 0xa0
  const CmdOtaSendInformation: nat := 0xa1
  const CmdOtaSendFirmwarePackage: nat := 0xa2
  const CmdOtaStartUpgradeProcedure: nat := 0xa3

  // Model ids
  const ModelInvalid: nat := 0x00
  const Model150: nat := 0x01
  const Model150B: nat := 0x02
  const Model208: nat := 0x03
  const Model208B: nat := 0x04
  const Model506: nat := 0x05
  const Model506B: nat := 0x06
  const Model506B2: nat := 0x600
  const Model501: nat := 0x07
  const Model502: nat := 0x08
  const ModelS1: nat := 0x09
  const ModelS2: nat := 0x0a
  const ModelS3: nat := 0x0b
  const Model172: nat := 0x0c
  const Model173: nat := 0x0d
  const Model175: nat := 0x0e
  const Model177: nat := 0x0f
  const ModelSflex10A: nat := 0x10
  const ModelSflex18A: nat := 0x11
  const ModelA17N: nat := 0x12
  const ModelS0: nat := 0x13
  const Model179: nat := 0x14
  const Model503: nat := 0x15
  const Model505: nat := 0x16

  // Word codes: strings the meter shows instead of a number
  const WordSpace: int := 0x700000
  const WordFull: int := 0x700001
  const WordBeep: int := 0x700002
  const WordApo: int := 0x700003
  const WordBLit: int := 0x700004
  const WordHaz: int := 0x700005
  const WordOn: int := 0x700006
  const WordOff: int := 0x700007
  const WordReset: int := 0x700008
  const WordStart: int := 0x700009
  const WordView: int := 0x70000a
  const WordPause: int := 0x70000b
  const WordFuse: int := 0x70000c
  const WordProbe: int := 0x70000d
  const WordDef: int := 0x70000e
  const WordClr: int := 0x70000f
  const WordEr: int := 0x700010
  const WordEr1: int := 0x700011
  const WordEr2: int := 0x700012
  const WordEr3: int := 0x700013
  const WordDash: int := 0x700014
  const WordDash1: int := 0x700015
  const WordTest: int := 0x700016
  const WordDash2: int := 0x700017
  const WordBatt: int := 0x700018
  const WordDislt: int := 0x700019
  const WordNoise: int := 0x70001a
  const WordFiltr: int := 0x70001b
  const WordPass: int := 0x70001c
  const WordNull: int := 0x70001d
  const Word0to20: int := 0x70001e
  const Word4to20: int := 0x70001f
  const WordRate: int := 0x700020
  const WordSave: int := 0x700021
  const WordLoad: int := 0x700022
  const WordYes: int := 0x700023
  const WordSend: int := 0x700024
  const WordAhold: int := 0x700025
  const WordAuto: int := 0x700026
  const WordCntin: int := 0x700027
  const WordCal: int := 0x700028
  const WordVersion: int := 0x700029
  const WordOl: int := 0x70002a
  const WordBatFull: int := 0x70002b
  const WordBatHalf: int := 0x70002c
  const WordLo: int := 0x70002d
  const WordHi: int := 0x70002e
  const WordDigit: int := 0x70002f
  const WordRdy: int := 0x700030
  const WordDisc: int := 0x700031
  const WordOutf: int := 0x700032
  const WordOla: int := 0x700033
  const WordOlv: int := 0x700034
  const WordOlva: int := 0x700035
  const WordBad: int := 0x700036
  const WordTemp: int := 0x700037

  // Units
  const UnitNone: nat := 0x00
  const UnitV: nat := 0x01
  const UnitMV: nat := 0x02
  const UnitA: nat := 0x03
  const UnitMA: nat := 0x04
  const UnitDB: nat := 0x05
  const UnitDBM: nat := 0x06
  const UnitMF: nat := 0x07
  const UnitUF: nat := 0x08
  const UnitNF: nat := 0x09
  const UnitGOhm: nat := 0x0a
  const UnitMOhm: nat := 0x0b
  const UnitKOhm: nat := 0x0c
  const UnitOhm: nat := 0x0d
  const UnitPercent: nat := 0x0e
  const UnitMHz: nat := 0x0f
  const UnitKHz: nat := 0x10
  const UnitHz: nat := 0x11
  const UnitDegC: nat := 0x12
  const UnitDegF: nat := 0x13
  const UnitSec: nat := 0x14
  const UnitMs: nat := 0x15
  const UnitUs: nat := 0x16
  const UnitNs: nat := 0x17
  const UnitUA: nat := 0x18
  const UnitMin: nat := 0x19
  const UnitKW: nat := 0x1a
  const UnitPF: nat := 0x1b

  /** Named dot positions run from DOT_NONE (0) to DOT_9_9999 (4). */
  const DotMax: nat := 0x04
  const Overload: nat := 0x01
  const AutoRange: nat := 0x01

  // Data content
  const ContentMeasuringData: nat := 0x00
  const ContentFrequency: nat := 0x01
  const ContentCycle: nat := 0x02
  const ContentDuty: nat := 0x03
  const ContentMemoryStamp: nat := 0x04
  const ContentMemorySave: nat := 0x05
  const ContentMemoryLoad: nat := 0x06
  const ContentLogSave: nat := 0x07
  const ContentLogLoad: nat := 0x08
  const ContentLogRate: nat := 0x09
  const ContentRelDelta: nat := 0x0a
  const ContentRelPercent: nat := 0x0b
  const ContentRelReference: nat := 0x0c
  const ContentMaximum: nat := 0x0d
  const ContentMinimum: nat := 0x0e
  const ContentAverage: nat := 0x0f
  const ContentPeakHoldMax: nat := 0x10
  const ContentPeakHoldMin: nat := 0x11
  const ContentDbm: nat := 0x12
  const ContentDb: nat := 0x13
  const ContentAutoHold: nat := 0x14
  const ContentSetup: nat := 0x15
  const ContentLogStamp: nat := 0x16
  const ContentLogMax: nat := 0x17
  const ContentLogMin: nat := 0x18
  const ContentLogTp: nat := 0x19
  const ContentHold: nat := 0x1a
  const ContentCurrentOutput: nat := 0x1b
  const ContentCurOut0to20: nat := 0x1c
  const ContentCurOut4to20: nat := 0x1d

  // Function codes: rotary switch position and selected sub-function
  const FnNone: nat := 0x00
  const FnAcV: nat := 0x01
  const FnDcV: nat := 0x02
  const FnAcMV: nat := 0x03
  const FnDcMV: nat := 0x04
  const FnOhm: nat := 0x05
  const FnContinuity: nat := 0x06
  const FnDiode: nat := 0x07
  const FnCap: nat := 0x08
  const FnAcA: nat := 0x09
  const FnDcA: nat := 0x0a
  const FnAcMA: nat := 0x0b
  const FnDcMA: nat := 0x0c
  const FnDegC: nat := 0x0d
  const FnDegF: nat := 0x0e
  const FnFrequency: nat := 0x0f
  const FnDuty: nat := 0x10
  const FnHzV: nat := 0x11
  const FnHzMV: nat := 0x12
  const FnHzA: nat := 0x13
  const FnHzMA: nat := 0x14
  const FnAcDcV: nat := 0x15
  const FnAcDcMV: nat := 0x16
  const FnAcDcA: nat := 0x17
  const FnAcDcMA: nat := 0x18
  const FnLpfV: nat := 0x19
  const FnLpfMV: nat := 0x1a
  const FnLpfA: nat := 0x1b
  const FnLpfMA: nat := 0x1c
  const FnAcUA: nat := 0x1d
  const FnDcUA: nat := 0x1e
  const FnDcAOut: nat := 0x1f
  const FnDcAOutSlowLinear: nat := 0x20
  const FnDcAOutFastLinear: nat := 0x21
  const FnDcAOutSlowStep: nat := 0x22
  const FnDcAOutFastStep: nat := 0x23
  const FnLoopPower: nat := 0x24
  const Fn250OhmHart: nat := 0x25
  const FnVoltSense: nat := 0x26
  const FnPeakHoldV: nat := 0x27
  const FnPeakHoldMV: nat := 0x28
  const FnPeakHoldA: nat := 0x29
  const FnPeakHoldMA: nat := 0x2a
  const FnLozAcV: nat := 0x2b
  const FnLozDcV: nat := 0x2c
  const FnLozAcDcV: nat := 0x2d
  const FnLozLpfV: nat := 0x2e
  const FnLozHzV: nat := 0x2f
  const FnLozPeakHoldV: nat := 0x30
  const FnBattery: nat := 0x31
  const FnAcW: nat := 0x32
  const FnDcW: nat := 0x33
  const FnPf: nat := 0x34
  const FnFlexAcA: nat := 0x35
  const FnFlexLpfA: nat := 0x36
  const FnFlexPeakHoldA: nat := 0x37
  const FnFlexHzA: nat := 0x38
  const FnVHarm: nat := 0x39
  const FnInrush: nat := 0x3a
  const FnAHarm: nat := 0x3b
  const FnFlexInrush: nat := 0x3c
  const FnFlexAHarm: nat := 0x3d
  const FnPeakHoldUA: nat := 0x3e
  const FnAcUAHfr: nat := 0x3f
  const FnAcVHfr: nat := 0x40
  const FnAcMVHfr: nat := 0x41
  const FnAcAHfr: nat := 0x42
  const FnAcMAHfr: nat := 0x43
  const FnAcUAHfr2: nat := 0x44
  const FnDcVPv: nat := 0x45
  const FnAcVPv: nat := 0x46
  const FnAcVPvHfr: nat := 0x47
  const FnAcDcVPv: nat := 0x48

  /** The largest function code, unit code and data-content code defined. */
  const FnMax: nat := FnAcDcVPv
  const UnitMax: nat := UnitPF
  const ContentMax: nat := ContentCurOut4to20

  // ---------------------------------------------------------------------
  // Size tables
  // ---------------------------------------------------------------------

  /** `appadmm_get_request_size`: payload bytes of each request. */
  function RequestSize(command: nat): (r: Result<nat>)
    ensures r.Failure? ==> r.error == ErrData
    ensures r.Success? ==> r.value <= FrameMaxDataSize
  {
    if command == CmdReadInformation then Success(0)
    else if command == CmdReadDisplay then Success(0)
    else if command == CmdReadProtocolVersion then Success(0)
    else if command == CmdReadBatteryLife then Success(0)
    else if command == CmdWriteUartConfiguration then Success(1)
    else if command == CmdCalReading then Success(0)
    else if command == CmdReadMemory then Success(4)
    else if command == CmdReadHarmonicsData then Success(0)
    else if command == CmdCalEnter then Success(0)
    else if command == CmdCalWriteFunctionCode then Success(1)
    else if command == CmdCalWriteRangeCode then Success(1)
    else if command == CmdCalWriteMemory then Success(64)
    else if command == CmdCalExit then Success(0)
    else if command == CmdOtaEnter then Success(0)
    else if command == CmdOtaSendInformation then Success(13)
    else if command == CmdOtaSendFirmwarePackage then Success(64)
    else if command == CmdOtaStartUpgradeProcedure then Success(1)
    else Failure(ErrData)
  }

  /** `appadmm_get_response_size`: payload bytes of each response. */
  function ResponseSize(command: nat): (r: Result<nat>)
    ensures r.Failure? ==> r.error == ErrData
    ensures r.Success? ==> r.value <= FrameMaxDataSize
  {
    if command == CmdReadInformation then Success(52)
    else if command == CmdReadDisplay then Success(12)
    else if command == CmdReadProtocolVersion then Success(4)
    else if command == CmdReadBatteryLife then Success(4)
    else if command == CmdCalReading then Success(23)
    else if command == CmdReadMemory then Success(64)
    else if command == CmdReadHarmonicsData then Success(50)
    else if command == CmdFailure then Success(1)
    else if command == CmdSuccess then Success(0)
    else Failure(ErrData)
  }

  /**
   * `appadmm_is_response_size_valid`: the lookup's error is passed on;
   * Read Memory accepts any size up to its maximum; every other command
   * needs the exact size.
   */
  function ResponseSizeValid(command: nat, size: int): (r: Status)
  {
    match ResponseSize(command)
    case Failure(e) => e
    case Success(expected) =>
      if command == CmdReadMemory && size <= expected then Ok
      else if expected == size then Ok
      else ErrData
  }

  /** The commands that are only ever answers. */
  predicate ResponseOnly(command: nat)
  {
    command == CmdFailure || command == CmdSuccess
  }

  /** The commands whose answer is only FAILURE or SUCCESS. */
  predicate AcknowledgedOnly(command: nat)
  {
    command in {CmdWriteUartConfiguration, CmdCalEnter, CmdCalWriteFunctionCode,
                CmdCalWriteRangeCode, CmdCalWriteMemory, CmdCalExit, CmdOtaEnter,
                CmdOtaSendInformation, CmdOtaSendFirmwarePackage, CmdOtaStartUpgradeProcedure}
  }

  /**
   * Request sizes exist for every command a host sends and for nothing
   * else; FAILURE and SUCCESS and unknown codes give SR_ERR_DATA.
   */
  lemma RequestSizeDomain(command: nat)
    ensures RequestSize(command).Success? <==>
      command in {CmdReadInformation, CmdReadDisplay, CmdReadProtocolVersion, CmdReadBatteryLife,
                  CmdCalReading, CmdReadMemory, CmdReadHarmonicsData} || AcknowledgedOnly(command)
    ensures ResponseOnly(command) ==> RequestSize(command) == Failure(ErrData)
  {
  }

  /**
   * A response size exists exactly for the read commands and the two
   * acknowledgements; UART, calibration and OTA commands give SR_ERR_DATA.
   */
  lemma ResponseSizeDomain(command: nat)
    ensures AcknowledgedOnly(command) ==> ResponseSize(command) == Failure(ErrData)
    ensures ResponseSize(command).Success? <==>
      command in {CmdReadInformation, CmdReadDisplay, CmdReadProtocolVersion, CmdReadBatteryLife,
                  CmdCalReading, CmdReadMemory, CmdReadHarmonicsData} || ResponseOnly(command)
  {
  }

  /**
   * The validity rule in both directions: without a response size the
   * lookup's error comes back; otherwise a size is accepted exactly when
   * it matches, or, for Read Memory, when it is at most 64.
   */
  lemma ResponseSizeValidRule(command: nat, size: int)
    ensures ResponseSize(command).Failure? ==> ResponseSizeValid(command, size) == ErrData
    ensures ResponseSizeValid(command, size) == Ok <==>
      ResponseSize(command).Success? &&
      (size == ResponseSize(command).value || (command == CmdReadMemory && size <= FrameMaxDataSize))
    ensures ResponseSizeValid(command, size) in {Ok, ErrData}
  {
  }

  /** Every accepted response fits into one frame. */
  lemma AcceptedResponseFits(command: nat, size: int)
    requires ResponseSizeValid(command, size) == Ok
    ensures size <= FrameMaxDataSize
    ensures size + FrameHeaderSize + FrameChecksumSize <= FrameMaxSize
  {
  }

  /**
   * The frame constants: 64 data + 4 header + 1 checksum = 69; a display
   * response frame is the 17-byte packet the driver reads.
   */
  lemma FrameConstants()
    ensures FrameMaxSize == 69
    ensures ResponseSize(CmdReadDisplay).value + FrameHeaderSize + FrameChecksumSize == PacketSize
  {
  }

  /** Every word code lies in 0x700000..0x700037. */
  predicate DefinedWordcode(w: int)
  {
    WordSpace <= w <= WordTemp
  }

  /** The dash word codes are exactly DASH, DASH1 and DASH2. */
  predicate IsDash(w: int)
  {
    w == WordDash || w == WordDash1 || w == WordDash2
  }

  lemma DashesAreWordcodes(w: int)
    requires IsDash(w)
    ensures DefinedWordcode(w) && w >= WordcodeTableMin
    ensures w in {0x700014, 0x700015, 0x700017}
  {
  }

  /** Unit codes fit in the 5-bit field, function and content codes in 7 bits. */
  lemma CodesFitTheirFields()
    ensures UnitMax < 32 && FnMax < 128 && ContentMax < 128
    ensures DotMax < 8
  {
  }

  /** Command codes above 64 are not admitted by the transport's header gate. */
  lemma HighCommands()
    ensures CmdFailure > FrameMaxDataSize && CmdSuccess > FrameMaxDataSize
    ensures CmdCalEnter >= 0x80 && CmdOtaStartUpgradeProcedure >= 0x80
    ensures CmdReadMemory <= FrameMaxDataSize && CmdReadHarmonicsData <= FrameMaxDataSize
  {
  }
}
