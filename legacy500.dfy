/**
 * The legacy APPA 500-series protocol (protocol_packet.h): one "read all
 * data" command whose answer carries both the identification and the
 * display state, translated into the Read Information and Read Display
 * records of the current protocol.
 */
module Legacy500 {
  import opened Bytes
  import opened Catalog
  import Transport
  import Codec

  /**
   * The 500-series constants: `APPADMM_500_COMMAND_READ_ALL_DATA`, its
   * request and response sizes, and the `appadmm_500_functioncode_e`
   * values. Their values are not part of this model, so they are a
   * parameter.
   */
  datatype Codes = Codes(readAllData: nat, requestSize: nat, responseSize: nat, functionCodes: seq<int>)

  /**
   * The current function code each 500-series code maps to, in the order
   * of `Codes.functionCodes`: °C, °F, AC V, DC V, AC+DC V, AC mV, DC mV,
   * AC+DC mV, Ω, continuity, capacitance, diode, AC mA, DC mA, AC+DC mA,
   * AC A, DC A, AC+DC A, frequency, duty.
   */
  const Targets: seq<nat> := [FnDegC, FnDegF, FnAcV, FnDcV, FnAcDcV, FnAcMV, FnDcMV, FnAcDcMV, FnOhm,
                              FnContinuity, FnCap, FnDiode, FnAcMA, FnDcMA, FnAcDcMA, FnAcA, FnDcA,
                              FnAcDcA, FnFrequency, FnDuty]

  /** Well-formed constants: one code per target, all distinct as `case` labels must be. */
  predicate ValidCodes(c: Codes)
  {
    && |c.functionCodes| == |Targets|
    && forall i, j :: 0 <= i < j < |c.functionCodes| ==> c.functionCodes[i] != c.functionCodes[j]
  }

  /** The low-pass-filter variant of an AC function, where there is one. */
  function LowPass(fn: nat): nat
  {
    if fn == FnAcV then FnLpfV
    else if fn == FnAcMV then FnLpfMV
    else if fn == FnAcMA then FnLpfMA
    else if fn == FnAcA then FnLpfA
    else fn
  }

  /**
   * `appadmm_500_map_functioncode`: the current code of a 500-series
   * function code; the AC codes become their LPF variant when `lpf` is
   * set, and an unknown code becomes NONE.
   */
  function MapFunctionCode(code: int, lpf: bool, c: Codes): (r: nat)
    requires |c.functionCodes| == |Targets|
  {
    var f := c.functionCodes;
    if code == f[0] then FnDegC
    else if code == f[1] then FnDegF
    else if code == f[2] then (if lpf then FnLpfV else FnAcV)
    else if code == f[3] then FnDcV
    else if code == f[4] then FnAcDcV
    else if code == f[5] then (if lpf then FnLpfMV else FnAcMV)
    else if code == f[6] then FnDcMV
    else if code == f[7] then FnAcDcMV
    else if code == f[8] then FnOhm
    else if code == f[9] then FnContinuity
    else if code == f[10] then FnCap
    else if code == f[11] then FnDiode
    else if code == f[12] then (if lpf then FnLpfMA else FnAcMA)
    else if code == f[13] then FnDcMA
    else if code == f[14] then FnAcDcMA
    else if code == f[15] then (if lpf then FnLpfA else FnAcA)
    else if code == f[16] then FnDcA
    else if code == f[17] then FnAcDcA
    else if code == f[18] then FnFrequency
    else if code == f[19] then FnDuty
    else FnNone
  }

  /**
   * The mapping follows the table: the i-th 500-series code maps to the
   * i-th target, or its LPF variant exactly when `lpf` is set; every other
   * code maps to NONE.
   */
  lemma MapFunctionCodeTable(c: Codes, lpf: bool)
    requires ValidCodes(c)
    ensures forall i :: 0 <= i < |Targets| ==>
      MapFunctionCode(c.functionCodes[i], lpf, c) == (if lpf then LowPass(Targets[i]) else Targets[i])
    ensures forall code :: code !in c.functionCodes ==> MapFunctionCode(code, lpf, c) == FnNone
  {
    var f := c.functionCodes;
    forall i | 0 <= i < |Targets|
      ensures MapFunctionCode(f[i], lpf, c) == (if lpf then LowPass(Targets[i]) else Targets[i])
    {
      assert forall j :: 0 <= j < i ==> f[i] != f[j];
    }
  }

  /** Only the four AC codes have an LPF variant, and it differs from the plain code. */
  lemma LowPassOnlyForAc(fn: nat)
    ensures LowPass(fn) != fn <==> fn in {FnAcV, FnAcMV, FnAcMA, FnAcA}
  {
  }

  /** `b >> k & 1`. */
  function Bit(b: byte, k: nat): (v: nat)
    requires k < 8
    ensures v < 2
  {
    var p := if k == 0 then 1 else if k == 1 then 2 else if k == 4 then 16 else if k == 5 then 32
             else if k == 6 then 64 else if k == 7 then 128 else if k == 2 then 4 else 8;
    b as nat / p % 2
  }

  /**
   * The reading after the flag byte: bit 7 blanks the display (SPACE);
   * bit 6 marks the reading as a word-code index, and index 0, which would
   * be SPACE, is shown as ER.
   */
  function FlaggedReading(raw: int, flags: byte): int
  {
    if Bit(flags, 7) == 1 then WordSpace
    else if Bit(flags, 6) == 1 then (if raw + WordSpace == WordSpace then WordEr else raw + WordSpace)
    else raw
  }

  /** A flagged reading is a word code exactly when its index is not negative. */
  lemma FlaggedReadingIsWordcode(raw: int, flags: byte)
    requires Bit(flags, 7) == 0 && Bit(flags, 6) == 1
    ensures FlaggedReading(raw, flags) >= WordcodeTableMin <==> raw >= 0
    ensures 0 <= raw <= 0x37 ==> DefinedWordcode(FlaggedReading(raw, flags))
    ensures FlaggedReading(raw, flags) != WordSpace
  {
  }

  /**
   * One display of the 500-series answer: a big-endian 24-bit reading,
   * dot/unit byte, and a byte with a 5-bit data content, the overload bit
   * 5 and the flags of `FlaggedReading`.
   */
  function DisplayDataAt(d: seq<byte>, at: nat): Codec.DisplayData
    requires at + 5 <= |d|
  {
    Codec.DisplayData(FlaggedReading(I24be(d, at), d[at + 4]), Low3(d[at + 3]), High5(d[at + 3]),
                      d[at + 4] as nat % 32, Bit(d[at + 4], 5))
  }

  /** `appadmm_500_enc_read_display` and `appadmm_500_enc_read_information`: one request. */
  function EncodeReadAllData(c: Codes): (p: (nat, nat))
    ensures p.0 == c.readAllData && p.1 == c.requestSize
  {
    (c.readAllData, c.requestSize)
  }

  /**
   * `appadmm_500_dec_read_display`: SR_ERR_DATA unless the command and
   * length are those of "read all data"; otherwise the mapped function
   * code from the word at 20 and the LPF bit 4 of byte 24, the range code
   * byte 23, automatic range when bit 0 of byte 24 is clear, auto test from
   * bits 1 and 5, and the displays at bytes 37 and 42.
   */
  function DecodeDisplay(p: Transport.Packet, c: Codes): (r: Result<Codec.Display>)
    requires Codec.FullPacket(p) && |c.functionCodes| == |Targets|
    ensures r.Success? <==> p.command as nat == c.readAllData && p.length as nat == c.responseSize
    ensures r.Failure? ==> r.error == ErrData
  {
    if p.command as nat != c.readAllData then Failure(ErrData)
    else if p.length as nat != c.responseSize then Failure(ErrData)
    else
      var d := p.data;
      var flags := d[24];
      var autoTest := if Bit(flags, 1) == 1 || Bit(flags, 5) == 1 then 1 else 0;
      Success(Codec.Display(MapFunctionCode(U16le(d, 20), Bit(flags, 4) == 1, c), autoTest, d[23] as nat,
                            if Bit(flags, 0) == 0 then 1 else 0,
                            DisplayDataAt(d, 37), DisplayDataAt(d, 42)))
  }

  /** A display the 500 series can express: 5-bit content, no flags. */
  predicate Expressible(x: Codec.DisplayData)
  {
    Codec.DisplayDataFits(x) && x.dataContent < 32
  }

  /** How a 500-series meter lays out one display, flags clear. */
  function EncodeDisplayData(x: Codec.DisplayData): (r: seq<byte>)
    requires Expressible(x)
    ensures |r| == 5
  {
    var le := I24leBytes(x.reading);
    [le[2], le[1], le[0], Pack35(x.dot, x.unit), (x.dataContent + 32 * x.overload) as byte]
  }

  /** Each unflagged display comes back out of the 500-series decoder. */
  lemma DisplayDataRoundTrip(x: Codec.DisplayData, d: seq<byte>, at: nat)
    requires Expressible(x) && at + 5 <= |d| && d[at..at + 5] == EncodeDisplayData(x)
    ensures DisplayDataAt(d, at) == x
  {
    var le := I24leBytes(x.reading);
    assert [d[at + 2], d[at + 1], d[at]] == le;
    I24RoundTrip(x.reading);
    var flags := d[at + 4];
    assert flags as nat == x.dataContent + 32 * x.overload;
    assert Bit(flags, 7) == 0 && Bit(flags, 6) == 0;
  }

  // ---------------------------------------------------------------------
  // Identification
  // ---------------------------------------------------------------------

  /** The model id the 500 series is reported as. */
  const Model500Id: nat := 0x5050

  /** The stripped C string in a field of the answer, NUL-terminated after it. */
  function Text(field: seq<byte>): string
  {
    Codec.Strip(Codec.CString(Codec.Chars(field) + ['\0']))
  }

  /**
   * The identification in a 500-series answer: a 10-character name at 0
   * and an 8-character serial at 10, each ending at the first NUL and
   * stripped; model id 0x5050; firmware version from bytes 18 and 19 as
   * `b18 * 100 + b19 + 1`.
   */
  function InformationOf(p: Transport.Packet, c: Codes): Result<Codec.Information>
    requires Codec.FullPacket(p)
  {
    if p.command as nat != c.readAllData then Failure(ErrData)
    else if p.length as nat != c.responseSize then Failure(ErrData)
    else Success(Codec.Information(Text(p.data[..10]), Text(p.data[10..18]), Model500Id,
                                   p.data[18] as nat * 100 + p.data[19] as nat + 1))
  }

  /** The C string in a copied field, once its last char is forced to NUL. */
  lemma CopiedText(chars: string, field: seq<byte>, zeros: nat)
    requires zeros >= 2 && |chars| == |field| + zeros
    requires chars[..|chars| - 1] == (Codec.Chars(field) + Codec.Nuls(zeros))[..|chars| - 1] && chars[|chars| - 1] == '\0'
    ensures Codec.Strip(Codec.CString(chars)) == Text(field)
  {
    var s := Codec.Chars(field);
    var filled := s + Codec.Nuls(zeros);
    var split := s + ['\0'] + Codec.Nuls(zeros - 1);
    assert |chars| == |split|;
    forall k | 0 <= k < |chars| ensures chars[k] == split[k] {
      if k < |chars| - 1 {
        assert chars[k] == chars[..|chars| - 1][k] == filled[k];
      }
    }
    assert chars == split;
    CStringEndsAtNul(s, Codec.Nuls(zeros - 1));
  }

  /**
   * `appadmm_500_dec_read_information`: copy the name and serial through
   * the cursor, zero the rest of both arrays, then read the version bytes.
   */
  method DecodeInformation(p: Transport.Packet, c: Codes) returns (r: Result<Codec.Information>)
    requires Codec.FullPacket(p)
    ensures r == InformationOf(p, c)
  {
    if p.command as nat != c.readAllData {
      return Failure(ErrData);
    }
    if p.length as nat != c.responseSize {
      return Failure(ErrData);
    }
    var modelName, rd := Codec.CopyField(p.data, 0, 10, 32);
    ghost var copied := modelName[..];
    modelName[31] := '\0';
    assert modelName[..31] == copied[..31];
    var serialNumber;
    serialNumber, rd := Codec.CopyField(p.data, rd, 8, 16);
    ghost var copiedSerial := serialNumber[..];
    serialNumber[15] := '\0';
    assert serialNumber[..15] == copiedSerial[..15];
    var firmwareVersion := p.data[rd] as nat * 100;
    firmwareVersion := firmwareVersion + p.data[rd + 1] as nat + 1;
    var name := Codec.Strip(Codec.CString(modelName[..]));
    var serial := Codec.Strip(Codec.CString(serialNumber[..]));
    assert p.data[0..10] == p.data[..10];
    CopiedText(modelName[..], p.data[..10], 22);
    CopiedText(serialNumber[..], p.data[10..18], 8);
    r := Success(Codec.Information(name, serial, Model500Id, firmwareVersion));
    InformationOfFields(p, c, r.value);
  }

  /** A C string ends at its first NUL: whatever follows it is ignored. */
  lemma {:induction false} CStringEndsAtNul(s: string, t: string)
    ensures Codec.CString(s + ['\0'] + t) == Codec.CString(s + ['\0'])
  {
    if s != [] {
      assert (s + ['\0'] + t)[1..] == s[1..] + ['\0'] + t;
      assert (s + ['\0'])[1..] == s[1..] + ['\0'];
      CStringEndsAtNul(s[1..], t);
    } else {
      assert s + ['\0'] + t == ['\0'] + t;
    }
  }

  /** A 500-series text field padded with spaces to `capacity` bytes. */
  function Field(text: string, capacity: nat): (r: seq<byte>)
    requires Codec.CleanField(text, capacity + 1)
    ensures |r| == capacity
  {
    Codec.ToBytes(text) + Codec.Spaces(capacity - |text|)
  }

  /** A clean text in a space-padded field comes back out. */
  lemma FieldRoundTrip(text: string, capacity: nat)
    requires Codec.CleanField(text, capacity + 1)
    ensures Text(Field(text, capacity)) == text
  {
    var padded := text + Codec.Chars(Codec.Spaces(capacity - |text|));
    assert Codec.Chars(Field(text, capacity)) == padded;
    assert forall i :: 0 <= i < |padded| ==> padded[i] != '\0' by {
      forall i | 0 <= i < |padded| ensures padded[i] != '\0' {
        if i >= |text| {
          assert padded[i] as int == 0x20;
        }
      }
    }
    Codec.CStringStopsAtNul(padded);
    Codec.StripPadded(text, capacity - |text|);
  }

  /** What a 500-series meter sends: name, serial and the two version bytes. */
  function EncodeInformation(name: string, serial: string, major: byte, minor: byte, c: Codes): (p: Transport.Packet)
    requires Codec.CleanField(name, 11) && Codec.CleanField(serial, 9)
    requires c.readAllData < 256 && c.responseSize < 256
    ensures Codec.FullPacket(p)
    ensures p.data[..10] == Field(name, 10) && p.data[10..18] == Field(serial, 8)
    ensures p.data[18] == major && p.data[19] == minor
  {
    Codec.Middle(Field(name, 10), Field(serial, 8), [major, minor] + Codec.Spaces(44));
    var payload := Field(name, 10) + Field(serial, 8) + ([major, minor] + Codec.Spaces(44));
    Transport.Packet(c.readAllData as byte, c.responseSize as byte, payload)
  }

  /**
   * Round trip of the 500-series identification: name and serial come
   * back, the model id is 0x5050, and the version is `major*100+minor+1`.
   */
  lemma InformationRoundTrip(name: string, serial: string, major: byte, minor: byte, c: Codes)
    requires Codec.CleanField(name, 11) && Codec.CleanField(serial, 9)
    requires c.readAllData < 256 && c.responseSize < 256
    ensures InformationOf(EncodeInformation(name, serial, major, minor, c), c)
      == Success(Codec.Information(name, serial, Model500Id, major as nat * 100 + minor as nat + 1))
  {
    var p := EncodeInformation(name, serial, major, minor, c);
    FieldRoundTrip(name, 10);
    FieldRoundTrip(serial, 8);
    InformationOfFields(p, c, Codec.Information(name, serial, Model500Id, major as nat * 100 + minor as nat + 1));
  }

  /** The decoded identification in terms of its fields. */
  lemma InformationOfFields(p: Transport.Packet, c: Codes, info: Codec.Information)
    requires Codec.FullPacket(p) && p.command as nat == c.readAllData && p.length as nat == c.responseSize
    requires Text(p.data[..10]) == info.modelName && Text(p.data[10..18]) == info.serialNumber
    requires info.modelId == Model500Id && info.firmwareVersion == p.data[18] as nat * 100 + p.data[19] as nat + 1
    ensures InformationOf(p, c) == Success(info)
  {
  }
}
