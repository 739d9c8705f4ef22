/**
 * The command codecs shared by src/hardware/appa-dmm/packet.h and
 * src/hardware/appa-dmm/protocol_packet.h: Read Information, Read Display
 * and Read Memory requests and responses.
 */
module Codec {
  import opened Bytes
  import opened Catalog
  import Transport

  /** The packets the codecs see carry the struct's full 64-byte data array. */
  predicate FullPacket(p: Transport.Packet)
  {
    |p.data| == FrameMaxDataSize
  }

  // ---------------------------------------------------------------------
  // Read Information
  // ---------------------------------------------------------------------

  /** `appadmm_response_data_read_information_s`. */
  datatype Information = Information(modelName: string, serialNumber: string, modelId: nat, firmwareVersion: nat)

  /** `appadmm_enc_read_information`: command 0 with the request size 0. */
  function EncodeReadInformation(): (p: (nat, Result<nat>))
    ensures p.0 == CmdReadInformation && p.1 == Success(0)
  {
    (CmdReadInformation, RequestSize(CmdReadInformation))
  }

  /** The whitespace `g_strstrip` removes: `g_ascii_isspace`, which leaves out the vertical tab. */
  predicate IsSpace(c: char)
  {
    c as int in {9, 10, 12, 13, 32}
  }

  /** Characters of a `char` array up to its first NUL. */
  function CString(s: string): (r: string)
    ensures |r| <= |s|
    ensures forall i :: 0 <= i < |r| ==> r[i] != '\0'
    ensures |r| < |s| ==> s[|r|] == '\0'
  {
    if s == [] || s[0] == '\0' then [] else [s[0]] + CString(s[1..])
  }

  function TrimLeft(s: string): (r: string)
    ensures |r| <= |s|
    ensures r != [] ==> !IsSpace(r[0])
  {
    if s != [] && IsSpace(s[0]) then TrimLeft(s[1..]) else s
  }

  function TrimRight(s: string): (r: string)
    ensures |r| <= |s|
    ensures r != [] ==> !IsSpace(r[|r| - 1])
  {
    if s != [] && IsSpace(s[|s| - 1]) then TrimRight(s[..|s| - 1]) else s
  }

  /** The C string is the array's prefix before its first NUL. */
  lemma {:induction false} CStringIsPrefix(s: string)
    ensures CString(s) == s[..|CString(s)|]
  {
    if s != [] && s[0] != '\0' {
      CStringIsPrefix(s[1..]);
    }
  }

  /** Trimming on the left keeps a suffix. */
  lemma {:induction false} TrimLeftIsSuffix(s: string)
    ensures TrimLeft(s) == s[|s| - |TrimLeft(s)|..]
  {
    if s != [] && IsSpace(s[0]) {
      TrimLeftIsSuffix(s[1..]);
    }
  }

  /** Trimming on the right keeps a prefix. */
  lemma {:induction false} TrimRightIsPrefix(s: string)
    ensures TrimRight(s) == s[..|TrimRight(s)|]
  {
    if s != [] && IsSpace(s[|s| - 1]) {
      TrimRightIsPrefix(s[..|s| - 1]);
    }
  }

  /** `g_strstrip`: drop leading and trailing whitespace. */
  function Strip(s: string): string
  {
    TrimLeft(TrimRight(s))
  }

  /** A byte read into a `char`. */
  function Chars(s: seq<byte>): (r: string)
    ensures |r| == |s| && forall i :: 0 <= i < |s| ==> r[i] as int == s[i] as int
  {
    seq(|s|, i requires 0 <= i < |s| => s[i] as char)
  }

  /**
   * The text of a `size`-char field at `at`: its last char forced to NUL,
   * read up to the first NUL and stripped.
   */
  function FieldText(data: seq<byte>, at: nat, size: nat): string
    requires 0 < size && at + size <= |data|
  {
    Strip(CString(Chars(data[at..at + size - 1]) + ['\0']))
  }

  /**
   * The decoded Read Information response: the model name from bytes
   * 0..31 with byte 31 forced to NUL, the serial from bytes 32..47 with
   * byte 47 forced to NUL, both stripped, then model id and firmware
   * version as little-endian 16-bit words at bytes 48 and 50.
   */
  function InformationOf(p: Transport.Packet): Result<Information>
    requires FullPacket(p)
  {
    if p.command as nat != CmdReadInformation then Failure(ErrData)
    else if ResponseSizeValid(CmdReadInformation, p.length as int) != Ok then Failure(ErrData)
    else Success(Information(
      FieldText(p.data, 0, 32),
      FieldText(p.data, 32, 16),
      U16le(p.data, 48),
      U16le(p.data, 50)))
  }

  lemma CharsPrefix(s: seq<byte>, n: nat)
    requires n <= |s|
    ensures Chars(s)[..n] == Chars(s[..n])
  {
  }

  /** `n` NUL characters, as a zero-filled char array holds them. */
  function Nuls(n: nat): (r: string)
    ensures |r| == n && forall i :: 0 <= i < n ==> r[i] == '\0'
  {
    seq(n, _ => '\0')
  }

  /**
   * One text field copied through the cursor `rd` into a fresh array of
   * `size` chars: the first `len` from the data, the rest zero.
   */
  method CopyField(data: seq<byte>, rd: nat, len: nat, size: nat) returns (field: array<char>, next: nat)
    requires rd + len <= |data| && len <= size
    ensures fresh(field)
    ensures field[..] == Chars(data[rd..rd + len]) + Nuls(size - len)
    ensures next == rd + len
  {
    field := new char[size];
    next := rd;
    for i := 0 to size
      invariant next == rd + (if i < len then i else len)
      invariant forall k :: 0 <= k < i ==> field[k] == (if k < len then data[rd + k] as char else '\0')
    {
      if i < len {
        field[i] := data[next] as char;
        next := next + 1;
      } else {
        field[i] := '\0';
      }
    }
    var expected := Chars(data[rd..rd + len]) + Nuls(size - len);
    assert forall k :: 0 <= k < size ==> field[k] == expected[k];
  }

  /**
   * One text field of `size` chars copied into its array, its last char
   * forced to NUL, then read as a C string and stripped.
   */
  method CopyText(data: seq<byte>, rd: nat, size: nat) returns (text: string, next: nat)
    requires 0 < size && rd + size <= |data|
    ensures text == FieldText(data, rd, size)
    ensures next == rd + size
  {
    var field;
    field, next := CopyField(data, rd, size, size);
    ghost var copied := field[..];
    field[size - 1] := '\0';
    assert field[..] == copied[..size - 1] + ['\0'];
    assert copied[..size - 1] == Chars(data[rd..rd + size - 1]) by {
      assert copied == Chars(data[rd..rd + size]);
      CharsPrefix(data[rd..rd + size], size - 1);
      assert data[rd..rd + size][..size - 1] == data[rd..rd + size - 1];
    }
    text := Strip(CString(field[..]));
  }

  /**
   * `appadmm_dec_read_information`: copy the name and serial through a
   * cursor into their character arrays, terminate and strip them, then
   * read the two 16-bit words.
   */
  method DecodeReadInformation(p: Transport.Packet) returns (r: Result<Information>)
    requires FullPacket(p)
    ensures r == InformationOf(p)
  {
    if p.command as nat != CmdReadInformation {
      return Failure(ErrData);
    }
    if ResponseSizeValid(CmdReadInformation, p.length as int) != Ok {
      return Failure(ErrData);
    }
    var info := ReadInformationFields(p.data);
    r := Success(info);
  }

  /**
   * The fields of a Read Information payload, read through one cursor:
   * the name and serial copied into their arrays, then the two words.
   */
  method ReadInformationFields(data: seq<byte>) returns (info: Information)
    requires |data| == FrameMaxDataSize
    ensures info == Information(FieldText(data, 0, 32), FieldText(data, 32, 16), U16le(data, 48), U16le(data, 50))
  {
    var name, rd := CopyText(data, 0, 32);
    // packet.h strips the name before reading the serial, protocol_packet.h
    // after the two words; the arrays are disjoint, so the order does not matter.
    assert rd == 32;
    var serial;
    serial, rd := CopyText(data, rd, 16);
    // The cursor now stands at byte 48, where the two words follow.
    var modelId := U16le(data, 48);
    var firmwareVersion := U16le(data, 50);
    info := Information(name, serial, modelId, firmwareVersion);
  }

  /** A text field a meter reports: printable, no NUL, no edge whitespace. */
  predicate CleanField(s: string, capacity: nat)
  {
    && |s| < capacity
    && (forall i :: 0 <= i < |s| ==> 0 < s[i] as int < 256)
    && (s != [] ==> !IsSpace(s[0]) && !IsSpace(s[|s| - 1]))
  }

  function Spaces(n: nat): (r: seq<byte>)
    ensures |r| == n && forall i :: 0 <= i < n ==> r[i] == 0x20
  {
    seq(n, i => 0x20)
  }

  function ToBytes(s: string): (r: seq<byte>)
    requires forall i :: 0 <= i < |s| ==> s[i] as int < 256
    ensures |r| == |s| && forall i :: 0 <= i < |s| ==> r[i] as int == s[i] as int
  {
    seq(|s|, i requires 0 <= i < |s| => s[i] as int as byte)
  }

  /** A text field padded with spaces to its capacity. */
  function Field(text: string, capacity: nat): (r: seq<byte>)
    requires CleanField(text, capacity)
    ensures |r| == capacity
  {
    ToBytes(text) + Spaces(capacity - |text|)
  }

  lemma Middle<T>(a: seq<T>, b: seq<T>, c: seq<T>)
    ensures (a + b + c)[..|a|] == a
    ensures (a + b + c)[|a|..|a| + |b|] == b
    ensures (a + b + c)[|a| + |b|..] == c
  {
    assert (a + b + c)[..|a|] == a;
    assert (a + b + c)[|a|..|a| + |b|] == b;
    assert (a + b + c)[|a| + |b|..] == c;
  }

  /** What a meter sends: space-padded name and serial, then the two words. */
  function EncodeInformation(info: Information): (p: Transport.Packet)
    requires CleanField(info.modelName, 32) && CleanField(info.serialNumber, 16)
    requires info.modelId < 0x10000 && info.firmwareVersion < 0x10000
    ensures FullPacket(p)
    ensures p.data[..32] == Field(info.modelName, 32)
    ensures p.data[32..48] == Field(info.serialNumber, 16)
    ensures p.data[48..] == U16leBytes(info.modelId) + U16leBytes(info.firmwareVersion) + Spaces(12)
  {
    Middle(Field(info.modelName, 32), Field(info.serialNumber, 16),
           U16leBytes(info.modelId) + U16leBytes(info.firmwareVersion) + Spaces(12));
    var payload := Field(info.modelName, 32) + Field(info.serialNumber, 16)
      + (U16leBytes(info.modelId) + U16leBytes(info.firmwareVersion) + Spaces(12));
    Transport.Packet(CmdReadInformation as byte, 52, payload)
  }

  /** Trailing padding is stripped away and nothing else. */
  lemma StripPadded(s: string, pad: nat)
    requires s != [] ==> !IsSpace(s[0]) && !IsSpace(s[|s| - 1])
    ensures Strip(s + Chars(Spaces(pad))) == s
  {
    TrimRightPadding(s, pad);
  }

  lemma {:induction false} TrimRightPadding(s: string, pad: nat)
    requires s != [] ==> !IsSpace(s[|s| - 1])
    ensures TrimRight(s + Chars(Spaces(pad))) == s
    decreases pad
  {
    var padded := s + Chars(Spaces(pad));
    if pad == 0 {
      assert padded == s;
    } else {
      assert padded[..|padded| - 1] == s + Chars(Spaces(pad - 1));
      TrimRightPadding(s, pad - 1);
    }
  }

  /** One space-padded text field comes back out of decode and strip. */
  lemma FieldRoundTrip(text: string, capacity: nat, data: seq<byte>, at: nat)
    requires CleanField(text, capacity) && capacity >= 1 && at + capacity <= |data|
    requires data[at..at + capacity] == Field(text, capacity)
    ensures FieldText(data, at, capacity) == text
  {
    var field := Field(text, capacity);
    var padded := text + Chars(Spaces(capacity - 1 - |text|));
    assert forall i :: 0 <= i < |padded| ==> padded[i] != '\0' by {
      forall i | 0 <= i < |padded| ensures padded[i] != '\0' {
        if i >= |text| {
          assert padded[i] as int == 0x20;
        }
      }
    }
    assert Chars(data[at..at + capacity - 1]) == padded by {
      forall k | 0 <= k < capacity - 1 ensures Chars(data[at..at + capacity - 1])[k] == padded[k] {
        assert data[at + k] == field[k];
        if k < |text| {
          assert field[k] == ToBytes(text)[k];
        } else {
          assert field[k] == 0x20;
        }
      }
    }
    CStringStopsAtNul(padded);
    StripPadded(text, capacity - 1 - |text|);
  }

  /**
   * Round trip of Read Information: every clean name and serial and every
   * pair of 16-bit words a meter sends come back out of the decoder.
   */
  lemma InformationRoundTrip(info: Information)
    requires CleanField(info.modelName, 32) && CleanField(info.serialNumber, 16)
    requires info.modelId < 0x10000 && info.firmwareVersion < 0x10000
    ensures InformationOf(EncodeInformation(info)) == Success(info)
  {
    var p := EncodeInformation(info);
    assert FieldText(p.data, 0, 32) == info.modelName by {
      assert p.data[0..32] == p.data[..32];
      FieldRoundTrip(info.modelName, 32, p.data, 0);
    }
    assert FieldText(p.data, 32, 16) == info.serialNumber by {
      FieldRoundTrip(info.serialNumber, 16, p.data, 32);
    }
    InformationWords(info);
    InformationOfFields(p, info);
  }

  lemma InformationWords(info: Information)
    requires CleanField(info.modelName, 32) && CleanField(info.serialNumber, 16)
    requires info.modelId < 0x10000 && info.firmwareVersion < 0x10000
    ensures U16le(EncodeInformation(info).data, 48) == info.modelId
    ensures U16le(EncodeInformation(info).data, 50) == info.firmwareVersion
  {
    var data := EncodeInformation(info).data;
    var words := U16leBytes(info.modelId) + U16leBytes(info.firmwareVersion) + Spaces(12);
    assert data[48] == words[0] && data[49] == words[1];
    assert data[50] == words[2] && data[51] == words[3];
  }

  lemma InformationOfFields(p: Transport.Packet, info: Information)
    requires FullPacket(p) && p.command as nat == CmdReadInformation && p.length == 52
    requires FieldText(p.data, 0, 32) == info.modelName
    requires FieldText(p.data, 32, 16) == info.serialNumber
    requires U16le(p.data, 48) == info.modelId && U16le(p.data, 50) == info.firmwareVersion
    ensures InformationOf(p) == Success(info)
  {
    InformationSizeAccepted();
  }

  lemma InformationSizeAccepted()
    ensures ResponseSizeValid(CmdReadInformation, 52) == Ok
  {
  }

  lemma {:induction false} CStringStopsAtNul(s: string)
    requires forall i :: 0 <= i < |s| ==> s[i] != '\0'
    ensures CString(s + ['\0']) == s
  {
    if s != [] {
      assert (s + ['\0'])[1..] == s[1..] + ['\0'];
      CStringStopsAtNul(s[1..]);
    }
  }

  // ---------------------------------------------------------------------
  // Read Display
  // ---------------------------------------------------------------------

  /** `appadmm_display_data_s`: one display's reading and its attributes. */
  datatype DisplayData = DisplayData(reading: int, dot: nat, unit: nat, dataContent: nat, overload: nat)

  /** `appadmm_response_data_read_display_s`. */
  datatype Display = Display(functionCode: nat, autoTest: nat, rangeCode: nat, autoRange: nat,
                             primary: DisplayData, secondary: DisplayData)

  /** `appadmm_enc_read_display`: command 1 with the request size 0. */
  function EncodeReadDisplay(): (p: (nat, Result<nat>))
    ensures p.0 == CmdReadDisplay && p.1 == Success(0)
  {
    (CmdReadDisplay, RequestSize(CmdReadDisplay))
  }

  /** One display's five bytes: i24le reading, dot/unit, content/overload. */
  function DecodeDisplayData(s: seq<byte>, at: nat): DisplayData
    requires at + 5 <= |s|
  {
    DisplayData(I24le(s, at), Low3(s[at + 3]), High5(s[at + 3]), Low7(s[at + 4]), High1(s[at + 4]))
  }

  /**
   * `appadmm_dec_read_display`: command 1 and exactly 12 bytes, else
   * SR_ERR_DATA; then code/flag bytes and the two displays.
   */
  function DecodeReadDisplay(p: Transport.Packet): (r: Result<Display>)
    requires FullPacket(p)
    ensures r.Success? <==> p.command as nat == CmdReadDisplay && p.length == 12
    ensures r.Failure? ==> r.error == ErrData
  {
    if p.command as nat != CmdReadDisplay then Failure(ErrData)
    else if ResponseSizeValid(CmdReadDisplay, p.length as int) != Ok then Failure(ErrData)
    else
      var d := p.data;
      Success(Display(Low7(d[0]), High1(d[0]), Low7(d[1]), High1(d[1]),
                      DecodeDisplayData(d, 2), DecodeDisplayData(d, 7)))
  }

  /** A display record whose fields fit their bit widths. */
  predicate DisplayDataFits(x: DisplayData)
  {
    -0x80_0000 <= x.reading < 0x80_0000 && x.dot < 8 && x.unit < 32 && x.dataContent < 128 && x.overload < 2
  }

  predicate DisplayFits(x: Display)
  {
    x.functionCode < 128 && x.autoTest < 2 && x.rangeCode < 128 && x.autoRange < 2
    && DisplayDataFits(x.primary) && DisplayDataFits(x.secondary)
  }

  function EncodeDisplayData(x: DisplayData): (r: seq<byte>)
    requires DisplayDataFits(x)
    ensures |r| == 5
  {
    I24leBytes(x.reading) + [Pack35(x.dot, x.unit), Pack71(x.dataContent, x.overload)]
  }

  /** The 12-byte Read Display answer a meter sends for a display state. */
  function EncodeDisplay(x: Display): (p: Transport.Packet)
    requires DisplayFits(x)
    ensures FullPacket(p) && p.length == 12
  {
    var payload := [Pack71(x.functionCode, x.autoTest), Pack71(x.rangeCode, x.autoRange)]
      + EncodeDisplayData(x.primary) + EncodeDisplayData(x.secondary);
    Transport.Packet(CmdReadDisplay as byte, 12, payload + Spaces(52))
  }

  lemma DisplayDataRoundTrip(x: DisplayData, s: seq<byte>, at: nat)
    requires DisplayDataFits(x) && at + 5 <= |s| && s[at..at + 5] == EncodeDisplayData(x)
    ensures DecodeDisplayData(s, at) == x
  {
    assert s[at..at + 3] == s[at..at + 5][..3] == I24leBytes(x.reading);
    I24RoundTrip(x.reading);
    assert I24le(s, at) == I24le(s[at..at + 3], 0);
  }

  /** Every display state that fits the fields survives the codec. */
  lemma DisplayRoundTrip(x: Display)
    requires DisplayFits(x)
    ensures DecodeReadDisplay(EncodeDisplay(x)) == Success(x)
  {
    var p := EncodeDisplay(x);
    assert p.data[2..7] == EncodeDisplayData(x.primary);
    assert p.data[7..12] == EncodeDisplayData(x.secondary);
    DisplayDataRoundTrip(x.primary, p.data, 2);
    DisplayDataRoundTrip(x.secondary, p.data, 7);
  }

  /** Every field the display decoder produces fits its bit width. */
  lemma DecodedDisplayFits(p: Transport.Packet)
    requires FullPacket(p) && DecodeReadDisplay(p).Success?
    ensures DisplayFits(DecodeReadDisplay(p).value)
  {
  }

  // ---------------------------------------------------------------------
  // Read Memory
  // ---------------------------------------------------------------------

  /** `appadmm_request_data_read_memory_s`: which EEPROM bytes to read. */
  datatype MemoryRequest = MemoryRequest(deviceNumber: nat, memoryAddress: nat, dataLength: nat)

  predicate MemoryRequestFits(q: MemoryRequest)
  {
    q.deviceNumber < 256 && q.memoryAddress < 0x10000 && q.dataLength < 256
  }

  /**
   * `appadmm_enc_read_memory`: command 0x1a, length 4 and the data
   * `[device, address low, address high, length]`.
   */
  function EncodeReadMemory(q: MemoryRequest): (p: Transport.Packet)
    requires MemoryRequestFits(q)
    ensures p.command as nat == CmdReadMemory && p.length as nat == RequestSize(CmdReadMemory).value
    ensures |p.data| == 4
  {
    Transport.Packet(CmdReadMemory as byte, 4,
      [q.deviceNumber as byte] + U16leBytes(q.memoryAddress) + [q.dataLength as byte])
  }

  /** How a meter reads a Read Memory request. */
  function DecodeMemoryRequest(p: Transport.Packet): Option<MemoryRequest>
  {
    if p.command as nat == CmdReadMemory && p.length == 4 && |p.data| >= 4
    then Some(MemoryRequest(p.data[0] as nat, U16le(p.data, 1), p.data[3] as nat))
    else None
  }

  lemma MemoryRequestRoundTrip(q: MemoryRequest)
    requires MemoryRequestFits(q)
    ensures DecodeMemoryRequest(EncodeReadMemory(q)) == Some(q)
  {
  }

  /**
   * `appadmm_response_data_read_memory_s`: a 64-byte data array and the
   * number of bytes the last decode filled in.
   */
  class MemoryResponse {
    const data: array<byte>
    var dataLength: nat

    ghost predicate Valid()
      reads this
    {
      data.Length == FrameMaxDataSize && dataLength <= FrameMaxDataSize
    }

    /** The bytes the last successful decode delivered. */
    ghost function Contents(): seq<byte>
      reads this, data
      requires Valid()
    {
      data[..dataLength]
    }

    constructor ()
      ensures Valid() && fresh(data) && dataLength == 0
    {
      data := new byte[FrameMaxDataSize];
      dataLength := 0;
    }

    /**
     * `appadmm_dec_read_memory`: reject a wrong command or a length above
     * 64, otherwise copy exactly `length` bytes unchanged. Bytes past the
     * new length keep what they held.
     */
    method Decode(p: Transport.Packet) returns (status: Status)
      requires Valid() && FullPacket(p)
      modifies this, data
      ensures Valid()
      ensures status == Ok <==> p.command as nat == CmdReadMemory && p.length as nat <= FrameMaxDataSize
      ensures status != Ok ==> status == ErrData && dataLength == old(dataLength) && data[..] == old(data[..])
      ensures status == Ok ==> dataLength == p.length as nat && Contents() == p.data[..p.length]
      ensures status == Ok ==> data[p.length..] == old(data[p.length..])
    {
      if p.command as nat != CmdReadMemory {
        return ErrData;
      }
      if ResponseSizeValid(CmdReadMemory, p.length as int) != Ok {
        return ErrData;
      }
      if p.length as nat > data.Length {
        return ErrData;
      }
      dataLength := p.length as nat;
      var rd := 0;
      for i := 0 to p.length as nat
        invariant rd == i && dataLength == p.length as nat && Valid()
        invariant data[..i] == p.data[..i]
        invariant data[p.length..] == old(data[p.length..])
      {
        data[i] := p.data[rd];
        rd := rd + 1;
      }
      status := Ok;
    }
  }
}
