# APPA multimeter protocol engine

This project models the protocol engine that libsigrok uses to talk to APPA
multimeters (the 150, 170, 200, 500, S and sFlex series, and the
legacy 500 series). Every part is proved in Dafny. The engine has five layers:

- **Transport framer** (`Transport`, src/tp/appa.c). A frame is
  `55 55 command length data checksum`. The `Framer` class keeps the
  69-byte receive buffer and its fill count. It scans the bytes of one read
  byte by byte, closes a frame when the count reaches length + 5, judges
  the checksum, and always ends with the buffer reset. The send path is a
  function that builds the bytes written. `SendReceive` makes up to ten
  receive attempts.
- **Frame catalog and codecs** (`Bytes`, `Catalog`, `Codec`, `Storage`,
  `Legacy500`). These cover:
  - the per-command payload-size tables and the size-validity rule;
  - the Read Information, Read Display and Read Memory encoders and
    decoders, with their 7+1-bit, 3+5-bit, signed 24-bit and 16-bit
    fields;
  - the MEM/LOG storage-information block;
  - the paging arithmetic that turns an entry number into a Read Memory
    request;
  - the decoding of a page of stored records;
  - the translation of the legacy 500-series "read all data" answer.

  packet.h (the revision protocol.c is built with) and protocol_packet.h
  (the newer, model-aware revision) differ in three operations:
  `dec_storage_info`, `enc_read_storage` and `dec_read_storage`. Each of
  these is modelled once per file. The Read Information, Read Display and
  Read Memory codecs produce the same results in both files, so `Codec`
  holds one model of them.
- **Display interpreter** (`Transform`,
  `appadmm_transform_display_data`). It turns one display reading into a
  sigrok sample:
  - unit, quantity, flags and digits;
  - an exact value `reading * multiplier * 10^exponent`, or `Infinite`;
  - the notice a word code raises;
  - the forced COUNT sample when no quantity is found.
- **Session control** (`Session`, src/hardware/appa-dmm/protocol.c). It covers:
  - the channel-capability table;
  - vendor, model and version from the identification answer;
  - the live and storage acquisition callbacks, with their request latch
    and error counter;
  - the processing of a page of stored records;
  - clearing the device context.

  `DeviceContext` is a class whose methods update its fields in place. Each
  method is proved against a step function on a `Context` value, and the
  properties are lemmas about those functions.
- **Standalone B-series parser** (`AppaB`, src/dmm/appa_b.c). It covers:
  - its own checksum, reading decoder and word-code names;
  - the request writers, which fill a caller's buffer;
  - the frame validator;
  - `sr_appa_b_parse`, which updates a `Meaning` object and the display
    index of an `Info` object.

C status codes are the `Status` datatype. Values that C uses both as a
truth value and as a status are `Session.CInt`, so the truthiness of
`SR_ERR_NA` at the call sites is explicit. I/O results, the session sink's
status and the software-limit check are inputs.

## Model

| member | source | states |
|---|---|---|
| Bytes.Sum8IsSumMod | src/tp/appa.c:217-229 | the `uint8_t` checksum accumulated byte by byte equals the byte sum modulo 256 |
| Bytes.Sum8Append | src/tp/appa.c:84-85 | the checksum of header plus data is the wrapped sum of the two partial checksums, as the send path adds them |
| Bytes.CDiv | src/hardware/appa-dmm/packet.h:595-596 | C division by a positive divisor: Euclidean for a non-negative dividend, never positive for a negative one |
| Bytes.CMod | src/hardware/appa-dmm/packet.h:587 | C remainder: `a == b*CDiv(a,b) + r`, with the sign of the dividend and magnitude below the divisor |
| Bytes.U16le | src/hardware/appa-dmm/packet.h:255-256 | a little-endian 16-bit field is below 65536 |
| Bytes.U16leBytes | src/hardware/appa-dmm/packet.h:421 | the two bytes written for a 16-bit value read back as that value |
| Bytes.U16be | src/hardware/appa-dmm/packet.h:549-551 | a big-endian 16-bit field is below 65536 |
| Bytes.U16beBytes | src/hardware/appa-dmm/protocol_packet.h:705-707 | the big-endian bytes of a 16-bit value read back as that value |
| Bytes.I24le | src/hardware/appa-dmm/packet.h:334 | a signed 24-bit little-endian reading lies in [-2^23, 2^23) |
| Bytes.I24be | src/hardware/appa-dmm/protocol_packet.h:1062-1063 | a signed 24-bit big-endian reading lies in [-2^23, 2^23) |
| Bytes.I24RoundTrip | src/hardware/appa-dmm/packet.h:334 | every 24-bit reading survives encoding and decoding |
| Bytes.I24Injective | src/hardware/appa-dmm/packet.h:334 | distinct byte triples decode to distinct readings |
| Bytes.Low7 | src/hardware/appa-dmm/packet.h:327 | `b & 0x7f` is below 128 |
| Bytes.High1 | src/hardware/appa-dmm/packet.h:328 | `b >> 7` is 0 or 1 |
| Bytes.Low3 | src/hardware/appa-dmm/packet.h:337 | `b & 7` is below 8 |
| Bytes.High5 | src/hardware/appa-dmm/packet.h:338 | `b >> 3` is below 32 |
| Bytes.Split71 | src/hardware/appa-dmm/packet.h:326-328 | splitting a byte into 7-bit code and flag bit loses nothing |
| Bytes.Split35 | src/hardware/appa-dmm/packet.h:336-338 | splitting a byte into 3-bit dot and 5-bit unit loses nothing |
| Transport.FrameSizes | src/tp/appa.h:37-41 | constant check, not a property: frame 69 = data 64 + header 4 + checksum 1, payload 68, ten receive attempts in 500 ms, a 207-byte read chunk |
| Transport.Gate | src/tp/appa.c:126-143 | taking one byte keeps a partial frame partial or completes it with a valid header, and never exceeds 69 bytes |
| Transport.ScanFrame | src/tp/appa.c:124-152 | the first frame a scan completes is complete and has start bytes and command and length at most 64 |
| Transport.GateRules | src/tp/appa.c:126-179 | a non-start byte is skipped on an empty buffer and resets a one-byte buffer; a command or length byte above 64 resets; any other byte is appended; the overflow guard is unreachable |
| Transport.ScanIgnoresTail | src/tp/appa.c:146-186 | the bytes after the first completed frame do not change what the scan returns |
| Transport.ScanSkipsNoise | src/tp/appa.c:126-129 | bytes without a start byte before a frame are skipped |
| Transport.ReceivedPacketBounds | src/tp/appa.c:135-162 | a delivered packet has a command and length of at most 64 and exactly `length` data bytes |
| Transport.ScanCompletes | src/tp/appa.c:146-152 | a well-formed frame in the input is completed exactly at its last byte |
| Transport.SendFrame | src/tp/appa.c:62-102 | as written: SR_ERR_DATA exactly for a length above 68; SR_ERR_IO exactly for a short write of an accepted length; otherwise length + 5 bytes `55 55 command stale`, the first `length` bytes of the data and the bytes beyond it, then the wrapped sum of header and payload checksums |
| Transport.EncodeFrame | src/tp/appa.c:62-102 | the intended frame exists exactly for lengths up to 64 and is length + 5 bytes long |
| Transport.EncodeReceiveRoundTrip | src/tp/appa.c:62-187 | every packet the scanner admits comes back whole from the intended send and receive |
| Transport.ReceiveRejectsCorrectFrame | src/tp/appa.c:155-157 | the receive path as written rejects the correct frame `55 55 01 00 AB`, which the intended test accepts |
| Transport.SendMisframes | src/tp/appa.c:77-85 | as written, with the stale `header[3]` byte 0, a packet with data is never received as sent |
| Transport.Framer.constructor | src/tp/appa.c:40-50 | a new framer has an empty buffer |
| Transport.Framer.Reset | src/tp/appa.c:231-241 | the buffer is empty and its four header bytes are zero; the rest is unchanged |
| Transport.Framer.Receive | src/tp/appa.c:104-187 | returns the reception of the read from the bytes already buffered; a failed read changes nothing; otherwise the buffer ends empty |
| Transport.Framer.Take | src/tp/appa.c:126-152 | the buffer becomes the gated buffer, and `complete` says whether it now holds a whole frame |
| Transport.Framer.Judge | src/tp/appa.c:154-171 | a completed frame gets the checksum verdict of the code as written |
| Transport.Framer.SendReceive | src/tp/appa.c:189-215 | at most ten attempts; a failed send makes none; the result is the first error or packet over the replies |
| Transport.Checksum | src/tp/appa.c:217-229 | the loop that counts down returns the `uint8_t` sum of `data[0..size)` (byte sum mod 256), and 0 for a NULL buffer |
| Catalog.RequestSize | src/hardware/appa-dmm/packet.h:54-101 | a request size is at most 64; an unknown command is SR_ERR_DATA |
| Catalog.ResponseSize | src/hardware/appa-dmm/packet.h:109-148 | a response size is at most 64; anything else is SR_ERR_DATA |
| Catalog.RequestSizeDomain | src/hardware/appa-dmm/packet.h:54-101 | request sizes exist exactly for the host commands; FAILURE, SUCCESS and unknown codes give SR_ERR_DATA |
| Catalog.ResponseSizeDomain | src/hardware/appa-dmm/packet.h:109-148 | response sizes exist exactly for the read commands and the two acknowledgements; UART, calibration and OTA give SR_ERR_DATA |
| Catalog.ResponseSizeValidRule | src/hardware/appa-dmm/packet.h:157-174 | a size is valid exactly when it matches, or is at most 64 for Read Memory; the lookup's error is passed on |
| Catalog.AcceptedResponseFits | src/hardware/appa-dmm/packet.h:157-174 | every accepted response fits one 69-byte frame |
| Catalog.FrameConstants | src/hardware/appa-dmm/protocol.h:45-68 | constant check, not a property: the maximum frame is 69 bytes; a display response frame is the 17-byte packet |
| Catalog.DashesAreWordcodes | src/hardware/appa-dmm/protocol.h:353-410 | the dashes are the word codes 0x700014, 0x700015 and 0x700017 |
| Catalog.CodesFitTheirFields | src/hardware/appa-dmm/protocol.h:415-581 | unit codes fit 5 bits, function and content codes 7 bits, dot positions 3 bits |
| Catalog.HighCommands | src/hardware/appa-dmm/protocol.h:134-154 | FAILURE, SUCCESS, calibration and OTA codes exceed 64; Read Memory and harmonics do not |
| Codec.EncodeReadInformation | src/hardware/appa-dmm/packet.h:186-197 | command 0 with request size 0 |
| Codec.CString | src/hardware/appa-dmm/packet.h:240-243 | the C string has no NUL, and it stops at the first NUL of the array |
| Codec.CStringIsPrefix | src/hardware/appa-dmm/packet.h:240-243 | the C string is a prefix of the array |
| Codec.CStringStopsAtNul | src/hardware/appa-dmm/packet.h:240 | a forced NUL ends the string right there |
| Codec.TrimLeft | src/hardware/appa-dmm/packet.h:243 | leading whitespace is gone |
| Codec.TrimRight | src/hardware/appa-dmm/packet.h:243 | trailing whitespace is gone |
| Codec.TrimLeftIsSuffix | src/hardware/appa-dmm/packet.h:243 | left trimming keeps a suffix |
| Codec.TrimRightIsPrefix | src/hardware/appa-dmm/packet.h:243 | right trimming keeps a prefix |
| Codec.Chars | src/hardware/appa-dmm/packet.h:236-239 | each byte becomes the char of the same code |
| Codec.CopyField | src/hardware/appa-dmm/packet.h:235-239 | the field array holds the copied bytes, then zeros; the cursor moves past them |
| Codec.CopyText | src/hardware/appa-dmm/packet.h:235-243 | the copied text is the field with its last char forced to NUL, read up to the NUL and stripped |
| Codec.DecodeReadInformation | src/hardware/appa-dmm/packet.h:206-259 | the answer as the decoder specification reads it: SR_ERR_DATA unless command 0 and length 52 |
| Codec.ReadInformationFields | src/hardware/appa-dmm/packet.h:228-256 | name from bytes 0..31, serial from 32..47, both terminated and stripped; model id and firmware as LE words at 48 and 50 |
| Codec.StripPadded | src/hardware/appa-dmm/packet.h:243 | stripping removes trailing padding and nothing else |
| Codec.TrimRightPadding | src/hardware/appa-dmm/packet.h:243 | right trimming removes exactly the space padding |
| Codec.FieldRoundTrip | src/hardware/appa-dmm/packet.h:235-253 | a clean text padded with spaces comes back out of the field |
| Codec.InformationRoundTrip | src/hardware/appa-dmm/packet.h:206-259 | every clean name and serial and every pair of 16-bit words comes back out of the decoder |
| Codec.InformationWords | src/hardware/appa-dmm/packet.h:255-256 | model id and firmware version read back from bytes 48 and 50 |
| Codec.InformationOfFields | src/hardware/appa-dmm/packet.h:222-256 | a 52-byte answer with command 0 decodes to the texts and words of its fields |
| Codec.InformationSizeAccepted | src/hardware/appa-dmm/packet.h:225-226 | a 52-byte answer passes the size check |
| Codec.EncodeReadDisplay | src/hardware/appa-dmm/packet.h:288-299 | command 1 with request size 0 |
| Codec.DecodeReadDisplay | src/hardware/appa-dmm/packet.h:308-355 | decodes exactly when command 1 and length 12; otherwise SR_ERR_DATA |
| Codec.DisplayDataRoundTrip | src/hardware/appa-dmm/packet.h:334-352 | one display's five bytes decode to the record they encode |
| Codec.DisplayRoundTrip | src/hardware/appa-dmm/packet.h:308-355 | every display state whose fields fit their widths survives the codec |
| Codec.DecodedDisplayFits | src/hardware/appa-dmm/packet.h:326-352 | every decoded field fits its bit width |
| Codec.EncodeReadMemory | src/hardware/appa-dmm/packet.h:406-425 | command 0x1a, length 4, and four data bytes |
| Codec.MemoryRequestRoundTrip | src/hardware/appa-dmm/packet.h:418-422 | `[device, address low, address high, length]` reads back as the request |
| Codec.MemoryResponse.Decode | src/hardware/appa-dmm/packet.h:434-462 | accepts exactly command 0x1a with length at most 64 and then copies exactly `length` bytes unchanged; otherwise SR_ERR_DATA and nothing changes |
| Storage.PacketStorageInfo | src/hardware/appa-dmm/packet.h:535-566 | fails with SR_ERR_DATA exactly when the answer is not 6 bytes; other slots are untouched |
| Storage.PacketStorageInfoReads | src/hardware/appa-dmm/packet.h:549-562 | LOG rate, LOG amount and MEM amount come back in their slots, with geometry MEM 5/500/0x500/2 and LOG 5/10000/0x1000/4 |
| Storage.DecodePacketStorageInfo | src/hardware/appa-dmm/packet.h:535-566 | the caller's array is written as the specification says |
| Storage.ModelStorageInfo | src/hardware/appa-dmm/protocol_packet.h:678-768 | fails with SR_ERR_DATA exactly when the answer is not 6 bytes; other slots are untouched |
| Storage.UnsupportedModelKeepsInfo | src/hardware/appa-dmm/protocol_packet.h:693-702 | a model without MEM/LOG changes nothing and gets SR_OK |
| Storage.WordsOfBlock | src/hardware/appa-dmm/protocol_packet.h:705-707 | three big-endian words read back in order |
| Storage.ModelStorageInfoOrder | src/hardware/appa-dmm/protocol_packet.h:703-741 | the 150 series reads MEM amount, LOG amount, LOG interval; the 200/500 series reads LOG interval, LOG amount, MEM amount; each gets its geometry |
| Storage.RotationPicksFirstLive | src/hardware/appa-dmm/protocol_packet.h:750-763 | the 170/S rotation settles on the first slot that is not 0xff; with none, the LOG geometry is kept |
| Storage.RotateLog | src/hardware/appa-dmm/protocol_packet.h:750-763 | the 4-slot loop writes only the LOG slot, as the rotation specification says |
| Storage.DecodeModelStorageInfo | src/hardware/appa-dmm/protocol_packet.h:678-768 | the context's slots are written as the specification says |
| Storage.PageEntries | src/hardware/appa-dmm/protocol_packet.h:804-805 | one 64-byte answer carries at most 12 entries |
| Storage.PageClamp | src/hardware/appa-dmm/protocol_packet.h:804-805 | the entry count is clamped to what one answer carries |
| Storage.PageLengthBound | src/hardware/appa-dmm/protocol_packet.h:807-822 | the length rule asks for 1 to 64 bytes |
| Storage.PacketPage | src/hardware/appa-dmm/packet.h:568-618 | as written, every accepted request asks for 64 bytes |
| Storage.EncodePacketPage | src/hardware/appa-dmm/packet.h:568-618 | the method with its shrinking loop returns the packet.h paging |
| Storage.ModelPageLength | src/hardware/appa-dmm/protocol_packet.h:807-822 | every request protocol_packet.h builds asks for 1 to 64 bytes |
| Storage.EncodeModelPage | src/hardware/appa-dmm/protocol_packet.h:788-828 | the method returns the protocol_packet.h paging |
| Storage.PageIsInBounds | src/hardware/appa-dmm/protocol_packet.h:798-819 | intended paging: accepts exactly entries 0..capacity-1, else SR_ERR_ARG; names a bank of the area, addresses the entry in it, asks for 1 to 64 bytes |
| Storage.PageStaysInBank | src/hardware/appa-dmm/protocol_packet.h:802-813 | a full-page request never reads past the end of the entry's bank |
| Storage.ModelPageOffByOne | src/hardware/appa-dmm/protocol_packet.h:798-800 | protocol_packet.h agrees with the intended paging except at entry `mem_count*entry_count`, which it sends to the bank after the last |
| Storage.PacketPageAcceptsEnd | src/hardware/appa-dmm/packet.h:578-580 | packet.h accepts MEM entry 1000 and sends it to device 2 of a two-bank area |
| Storage.PacketPageOverrunsBank | src/hardware/appa-dmm/packet.h:608 | for MEM entry 499 packet.h reads 12 records, 11 past the bank's end, where one is left |
| Storage.PacketAndModelPageAddress | src/hardware/appa-dmm/packet.h:595-598 | both revisions agree on device and address for every stored entry when `mem_start` is 0 |
| Storage.RecordCount | src/hardware/appa-dmm/packet.h:634-635 | `data_length / entry_size` records, at most 12, fit the answer |
| Storage.PacketRecords | src/hardware/appa-dmm/packet.h:620-648 | one record per `entry_size`-byte step of the answer |
| Storage.ModelRecords | src/hardware/appa-dmm/protocol_packet.h:842-876 | one record per entry, with the fill bytes skipped |
| Storage.RecordsAgreeWithoutFill | src/hardware/appa-dmm/protocol_packet.h:869-872 | with 5-byte entries both decoders agree |
| Storage.ModelRecordsRoundTrip | src/hardware/appa-dmm/protocol_packet.h:842-876 | records packed with their fill bytes come back out in order |
| Storage.RecordAt | src/hardware/appa-dmm/protocol_packet.h:857-872 | record `i` is read from offset `i * entry_size` |
| Storage.DecodePacketRecords | src/hardware/appa-dmm/packet.h:620-648 | the caller's array holds the packet.h records; SR_OK |
| Storage.DecodeModelRecords | src/hardware/appa-dmm/protocol_packet.h:842-876 | the caller's array holds the protocol_packet.h records; SR_OK |
| Legacy500.MapFunctionCodeTable | src/hardware/appa-dmm/protocol_packet.h:151-211 | the i-th 500-series code maps to the i-th target, or its LPF variant exactly when LPF is set; unknown codes map to NONE |
| Legacy500.LowPassOnlyForAc | src/hardware/appa-dmm/protocol_packet.h:159-198 | only AC V, AC mV, AC mA and AC A have an LPF variant |
| Legacy500.FlaggedReadingIsWordcode | src/hardware/appa-dmm/protocol_packet.h:1072-1082 | with bit 6, the reading becomes a word code exactly for a non-negative index, and never SPACE |
| Legacy500.EncodeReadAllData | src/hardware/appa-dmm/protocol_packet.h:1019-1031 | the one "read all data" request |
| Legacy500.DecodeDisplay | src/hardware/appa-dmm/protocol_packet.h:1040-1107 | decodes exactly for the "read all data" command and length; otherwise SR_ERR_DATA |
| Legacy500.DisplayDataRoundTrip | src/hardware/appa-dmm/protocol_packet.h:1062-1093 | each unflagged display comes back out of the decoder |
| Legacy500.CopiedText | src/hardware/appa-dmm/protocol_packet.h:942-966 | the copied field with its last char forced to NUL reads as the field's text |
| Legacy500.DecodeInformation | src/hardware/appa-dmm/protocol_packet.h:912-969 | the method returns the decoder specification |
| Legacy500.CStringEndsAtNul | src/hardware/appa-dmm/protocol_packet.h:942-950 | whatever follows the first NUL is ignored |
| Legacy500.FieldRoundTrip | src/hardware/appa-dmm/protocol_packet.h:942-966 | a clean text in a padded field comes back out |
| Legacy500.InformationRoundTrip | src/hardware/appa-dmm/protocol_packet.h:912-969 | name and serial come back, model id is 0x5050, version is `major*100 + minor + 1` |
| Legacy500.InformationOfFields | src/hardware/appa-dmm/protocol_packet.h:935-966 | the decoded identification in terms of its fields |
| Transform.DotDigits | src/hardware/appa-dmm/protocol.c:175-203 | dot positions 0..4 give that many decimal digits, and no position gives more than four |
| Transform.UnitOf | src/hardware/appa-dmm/protocol.c:280-451 | the factor is ×60 exactly for minutes; no quantity exactly for unit NONE or an unknown unit |
| Transform.AcListDisjoint | src/hardware/appa-dmm/protocol.c:453-559 | the AC list shares no code with the other `case` lists |
| Transform.DcListDisjoint | src/hardware/appa-dmm/protocol.c:453-559 | the DC list shares no code with the AC+DC list, continuity or diode |
| Transform.Interpret | src/hardware/appa-dmm/protocol.c:165-623 | numbers and dashes raise no notice; word codes give an infinite unitless sample without quantity or flags; the value is scaled exactly for a number that is neither overloaded nor a dash |
| Transform.TransformDisplayData | src/hardware/appa-dmm/protocol.c:117-649 | SR_ERR_BUG exactly for the invalid channel; every emitted sample has a quantity |
| Transform.CountIffUnmeasured | src/hardware/appa-dmm/protocol.c:630-637 | the forced infinite COUNT sample with no flags or digits comes exactly for word codes and a missing unit |
| Transform.ScaleMatchesDigits | src/hardware/appa-dmm/protocol.c:165-564 | a measured number is `reading * 10^-digits`, or `reading * 60 * 10^-digits` in minutes with the dot's digits |
| Transform.InfiniteIff | src/hardware/appa-dmm/protocol.c:564-575 | the value is finite exactly for a measured reading that is neither overloaded, a word code nor a dash |
| Transform.AutorangeOnlyLive | src/hardware/appa-dmm/protocol.c:276-278 | AUTORANGE only on the live path with the auto-range bit set |
| Transform.AcFlagsNeedAlternatingUnit | src/hardware/appa-dmm/protocol.c:453-532 | AC and RMS come together, only for A, V and W, only from the AC and AC+DC lists |
| Transform.FunctionFlagsAc | src/hardware/appa-dmm/protocol.c:453-532 | the same for the function-code flags alone, in both directions |
| Transform.HoldOnlySecondary | src/hardware/appa-dmm/protocol.c:205-247 | HOLD and REFERENCE only on the secondary display, RELATIVE only on the primary |
| Transform.WordcodeSeverity | src/hardware/appa-dmm/protocol.c:577-623 | BATT, HAZ, FUSE, PROBE and ER..ER3 are errors; SPACE and dashes are silent; DEF has a °C/°F suffix only for those units; the rest are messages |
| Transform.NumericIsQuiet | src/hardware/appa-dmm/protocol.c:172-570 | numbers and dashes raise no notice |
| AppaB.DisplayFrameLength | src/dmm/appa_b.h:541-551 | constant check, not a property: a display frame is 17 bytes, the driver's packet size, with a 16-byte payload |
| AppaB.DecodeReading | src/dmm/appa_b.c:63-72 | the sign-filled reading is the signed 24-bit LE value, in [-2^23, 2^23) |
| AppaB.DecodeReadingExamples | src/dmm/appa_b.c:63-72 | worked example, not a property: `FF FF FF` is -1, `00 00 80` is -2^23, `FF FF 7F` is 2^23-1 |
| AppaB.WordcodeName | src/dmm/appa_b.c:96-214 | "N/A" exactly for values that are not word codes; "" exactly for SPACE |
| AppaB.Checksum | src/dmm/appa_b.c:216-227 | the countdown loop returns the `uint8_t` sum of `data[0..size)`, 0 for a NULL buffer or a size that is not positive |
| AppaB.RequestFrame | src/dmm/appa_b.c:229-263 | a request is `55 55 command 00` followed by its checksum |
| AppaB.RequestFrames | src/dmm/appa_b.c:229-263 | the information request is `55 55 00 00 AA`, the display request `55 55 01 00 AB` |
| AppaB.WriteRequest | src/dmm/appa_b.c:229-263 | SR_ERR_ARG exactly for a null buffer or one shorter than 5; otherwise the request frame fills bytes 0..4 and nothing else changes |
| AppaB.WriteInformationRequest | src/dmm/appa_b.c:229-245 | writes `55 55 00 00 AA` or returns SR_ERR_ARG |
| AppaB.WriteDisplayRequest | src/dmm/appa_b.c:247-263 | writes `55 55 01 00 AB` or returns SR_ERR_ARG |
| AppaB.ReadDisplayResponse | src/dmm/appa_b.c:265-308 | reads exactly when the frame starts `55 55 01 0C`; otherwise SR_ERR_IO |
| AppaB.ReadDisplayResponseAgrees | src/dmm/appa_b.c:265-308 | the reader sees what the driver's decoder sees in the packet with the same 12 data bytes |
| AppaB.PacketValid | src/dmm/appa_b.c:485-512 | true exactly for a non-null frame whose bytes 0..15 sum to byte 16 and that starts with two start bytes |
| AppaB.DisplayFrameRoundTrip | src/dmm/appa_b.c:265-308 | the frame of every display state is valid and reads back as that state |
| AppaB.FunctionListsAgree | src/dmm/appa_b.c:827-898 | outside the HFR and PV codes the parser's AC, DC and AC+DC lists are the driver's |
| AppaB.HfrPvUnflagged | src/dmm/appa_b.c:827-898 | the HFR and PV codes get no flags from the parser; the driver flags them for A, V and W |
| AppaB.ParseAgreesWithTransform | src/dmm/appa_b.c:525-968 | from a blank meaning the parser matches the driver's interpreter before its COUNT fallback, for all codes except HFR and PV |
| AppaB.ParseNumeric | src/dmm/appa_b.c:570-911 | the meaning is updated step by step as the numeric-path specification says |
| AppaB.Parse | src/dmm/appa_b.c:525-968 | SR_ERR_DATA with nothing changed for a frame that does not read; otherwise the display chosen by `ch_idx == 1` is parsed and `ch_idx` moves on by one |
| Session.CapChannelTable | src/hardware/appa-dmm/protocol.c:994-1042 | primary TRUE, invalid FALSE; secondary TRUE for the dual-display models, FALSE for the single-display ones, SR_ERR_NA otherwise |
| Session.DualShowsSecondary | src/hardware/appa-dmm/protocol.c:1011-1020 | a dual-display model has its secondary channel |
| Session.ShownChannels | src/hardware/appa-dmm/protocol.c:681-690 | at the call sites the secondary is shown exactly for models that are not single-display, the invalid model included |
| Session.LastSpace | src/hardware/appa-dmm/protocol.c:75-76 | none exactly when there is no space; otherwise a space with none after it |
| Session.SplitName | src/hardware/appa-dmm/protocol.c:72-85 | without a space the vendor is "APPA" and the model the whole name; otherwise vendor + " " + model is the name and the model has no space |
| Session.Decimal | src/hardware/appa-dmm/protocol.c:88-90 | `%d` gives at least one decimal digit |
| Session.DecimalRoundTrip | src/hardware/appa-dmm/protocol.c:88-90 | the digits read back as the number |
| Session.VersionRoundTrip | src/hardware/appa-dmm/protocol.c:87-90 | the version is the major number, a dot and exactly two minor digits, and reads back as the firmware version |
| Session.VersionExamples | src/hardware/appa-dmm/protocol.c:87-90 | worked example, not a property: 100 is "1.00", 5 is "0.05", 1234 is "12.34" |
| Session.InformationRead | src/hardware/appa-dmm/packet.h:261-286 | the information read is FALSE (no answer) exactly when ten attempts brought no frame, and an answer exactly when a frame decoded |
| Session.IdentifyResult | src/hardware/appa-dmm/protocol.c:47-97 | as written: returns the read's C value; derives no identity exactly when that value is below SR_OK, and then keeps the model id; from an answer derives its identity and stores its model id |
| Session.IdentifyFixed | src/hardware/appa-dmm/protocol.c:66-97 | intended: an identity is derived exactly from an answer, and without one the model id is kept |
| Session.IdentifyAcceptsSilence | src/hardware/appa-dmm/protocol.c:66-94 | as written, with no answer FALSE is returned and the identity and model id come from whatever the stack held, unlike the intended identification |
| Session.IdentifyAgreesOnReplies | src/hardware/appa-dmm/protocol.c:66-97 | on an answer or a failed read the written and the intended identification agree |
| Session.StorageSlot | src/hardware/appa-dmm/protocol.c:798-807 | LIVE has no storage slot; MEM and LOG do |
| Session.DisplaySamplesShape | src/hardware/appa-dmm/protocol.c:662-698 | the primary reading first, then the secondary exactly when the sink accepted the first and the model is not single-display; every sample has a quantity |
| Session.LiveStep | src/hardware/appa-dmm/protocol.c:844-899 | every sample sent is counted, and the callback returns TRUE or FALSE, never a status |
| Session.LiveLatch | src/hardware/appa-dmm/protocol.c:864-888 | a request goes out only with no request pending or one just answered and a wrapper result that is not below TRUE; after it one is pending |
| Session.LiveStops | src/hardware/appa-dmm/protocol.c:844-899 | TRUE exactly when no limit, no failed read, the samples were accepted and any needed request was sent |
| Session.RequestResultFixed | src/hardware/appa-dmm/protocol.c:880-882 | intended wrapper result: not below TRUE exactly for a request written, below SR_OK exactly for a failed one |
| Session.LiveRequestAborts | src/hardware/appa-dmm/protocol.c:879-888 | as written, the wrapper's SR_OK is below TRUE: the live callback never sends a request, and with none in flight it returns FALSE with the latch clear |
| Session.LiveRequestFixed | src/hardware/appa-dmm/protocol.c:879-888 | with the intended wrapper result a request is sent and latched, and TRUE is returned exactly when no limit is hit and neither the read nor the sink failed |
| Session.StoredSamples | src/hardware/appa-dmm/protocol.c:813-842 | the run's status is the sink's failure exactly when a record meets a failing sink, else SR_OK |
| Session.StoredSamplesStep | src/hardware/appa-dmm/protocol.c:813-840 | each record's samples go out first; a failed send returns its status, a reached limit ends the loop with SR_OK, and otherwise the remaining records follow |
| Session.StoredSamplesCounted | src/hardware/appa-dmm/protocol.c:813-842 | every sample sent is counted once; each record sends at most two |
| Session.StoredSamplesInterleave | src/hardware/appa-dmm/protocol.c:813-840 | a dual-display model sends, per record, its primary reading then its sample id |
| Session.SampleIdNumbersEntries | src/hardware/appa-dmm/protocol.c:726 | for the dual-display models only: with pages requested from entry `samples_read / 2`, the sample id of a record is its entry number counted from one |
| Session.SamplesPerRecord | src/hardware/appa-dmm/protocol.c:823-829 | a record sends one sample exactly for the single-display models, two otherwise |
| Session.StoredSamplesCount | src/hardware/appa-dmm/protocol.c:813-842 | with every send accepted and no limit, a page adds `SamplesPerRecord` samples per record |
| Session.SingleDisplayRereads | src/hardware/appa-dmm/protocol.c:958-960 | as written, for a single-display model the next page starts at `(samples_read + records) / 2`, inside the page just read once it holds two records; 12 records from entry 0 are followed by entry 6 |
| Session.NextEntryFollowsPage | src/hardware/appa-dmm/protocol.c:958-960 | intended: the next page starts right after the page just read, for every model, and equals `samples_read / 2` for all but the single-display models |
| Session.StorageStep | src/hardware/appa-dmm/protocol.c:901-981 | a status (SR_ERR_BUG) is returned exactly for the LIVE source, with nothing changed, nothing sent and no request; storage info, model and data source never change |
| Session.StorageLatch | src/hardware/appa-dmm/protocol.c:956-970 | a request goes out only for a wrapper result that is not below TRUE, with no request pending or one just answered; it asks for one 64-byte Read Memory page and leaves a request pending; every sample is counted |
| Session.StorageRequestAborts | src/hardware/appa-dmm/protocol.c:956-970 | as written, the storage callback never sends a request, and never returns TRUE with none in flight |
| Session.FailedStepsCount | src/hardware/appa-dmm/protocol.c:934-942 | after k failed reads the error counter is k and the latch is clear |
| Session.ToleratesElevenFailures | src/hardware/appa-dmm/protocol.c:937-942 | eleven failed reads in a row are ridden out and the twelfth stops acquisition |
| Session.ClearedContext | src/hardware/appa-dmm/protocol.c:1053-1089 | a cleared context has no usable storage area; clearing twice is clearing once; its storage callback answers SR_ERR_BUG and changes nothing; it shows both channels |
| Session.ClearStorageInfo | src/hardware/appa-dmm/protocol.c:1072-1089 | SR_ERR_BUG for a null array; otherwise every record is zeroed except `mem_start` |
| Session.DeviceContext.constructor | src/hardware/appa-dmm/api.c:58 | a zero-filled context: invalid model, LIVE, no latch, counters zero |
| Session.DeviceContext.ClearContext | src/hardware/appa-dmm/protocol.c:1053-1070 | the new state is the cleared old state |
| Session.DeviceContext.Identify | src/hardware/appa-dmm/protocol.c:47-97 | returns, derives and stores what the as-written identification says, including the stack's contents when no answer came; nothing but the model id changes |
| Session.DeviceContext.ProcessReadDisplay | src/hardware/appa-dmm/protocol.c:662-698 | sends the display's samples and counts each as read |
| Session.DeviceContext.SendRecord | src/hardware/appa-dmm/protocol.c:813-834 | sends one record's samples and counts them; nothing else changes |
| Session.DeviceContext.SendStoredRecords | src/hardware/appa-dmm/protocol.c:813-841 | the loop sends what the stored-samples specification says and stops at a failed send or the limit |
| Session.DeviceContext.ProcessStorage | src/hardware/appa-dmm/protocol.c:780-842 | SR_ERR_BUG for LIVE; otherwise the page's `data_length / 5` records are decoded and sent |
| Session.DeviceContext.ReceiveLive | src/hardware/appa-dmm/protocol.c:844-899 | the context moves as the live step function says |
| Session.DeviceContext.ReceiveMemory | src/hardware/appa-dmm/protocol.c:933-954 | counts a failed read, or takes one error back and processes a frame |
| Session.DeviceContext.ReceiveStorage | src/hardware/appa-dmm/protocol.c:901-981 | the context moves as the storage step function says |

## Left out

- Serial I/O (`serial_read_nonblocking`, `serial_write_nonblocking`) is replaced by inputs. What one read produced is a `ReadOutcome`, `LiveRead` or `StorageRead`, and a request's result is the C value `sent` that the request wrapper returned. `sr_appa_b_serial_open` and `sr_appa_b_serial_packet_request` (src/dmm/appa_b.c:324-472) are not modelled.
- `sr_tp_appa_init` and `sr_tp_appa_term` always return SR_ERR_BUG (src/tp/appa.c:52, 59). Only the buffer reset of init is modelled, by `Transport.Framer.constructor`.
- The codecs call `sr_tp_appa_send` and `sr_tp_appa_receive` with a third argument that src/tp/appa.h does not declare. The `response` wrappers and the `rere` wrappers of the display and memory reads are not modelled; the session takes their results as inputs. `Session.InformationRead` models `appadmm_rere_read_information`, and `Session.RequestResult` the value the `request` wrappers pass on.
- `appadmm_storage_info` (src/hardware/appa-dmm/protocol.c:748-777) only sends a fixed request (device 0, address 0xa, 6 bytes) and calls `dec_storage_info`. `Storage.DecodePacketStorageInfo` models that decoding.
- src/hardware/appa-dmm/api.c (scan, configuration and registration) is glue code and is not modelled. The exception is the zero-filled context of `g_malloc0` (api.c:58), modelled by `Session.DeviceContext.constructor`. The call to `appadmm_clear_context` there is commented out (api.c:60).
- Logging (`sr_err`, `sr_warn`, `sr_info`) becomes the `Transform.Notice` a word code raises.
- The FRAME_BEGIN and FRAME_END packets are not modelled. `sr_analog_init`, the `g_slist` channel lists and `sr_dev_acquisition_stop` are not modelled; a stopping callback is its FALSE reply.
- `sr_session_send` is one `sink` status that every send of a call returns.
- `sr_sw_limits_check` depends on time. It is an oracle input `limitHit`: the set of sample counts at which the limits are reached.
- `sr_sw_limits_init` in `appadmm_clear_context` is taken to leave `samples_read` alone.
- Floating point is not modelled. The `float` value is the exact `Scaled(reading, multiplier, exponent)`, and IEEE `INFINITY` is the tag `Infinite`.
- Session.SampleIdNumbersEntries: the sample id `samples_read / 2 + 1` is stated on integers, before its conversion to `float`.
- The functions of tables.h are not part of this model. `appadmm_is_wordcode`, `appadmm_is_wordcode_dash` and `appadmm_wordcode_name` use the src/dmm/appa_b.c definitions. `appadmm_channel_name` and both `model_id_name` tables (including src/dmm/appa_b.c:74-94) only feed log text and are not modelled.
- Legacy500: the values of `APPADMM_500_COMMAND_READ_ALL_DATA`, the 500-series sizes and the `appadmm_500_functioncode_e` codes are not in the sources, so they are the parameter `Codes`.
- Storage: the `APPADMM_STORAGE_150_*`, `APPADMM_STORAGE_200_500_*` and `APPADMM_STORAGE_170_S_*` geometry values are not in the sources, so they are the parameter `Geometries`.
- `APPADMM_STORAGE_INFO_COUNT` is not in the sources. `storage_info[]` is a sequence of any length of at least two, with MEM in slot 0 and LOG in slot 1.
- Storage.RotateLog: the 170/S loop reads 16 bytes from a 6-byte answer. The model reads them from the 64-byte response array, as the C code does.
- Storage.PacketPage, Storage.ModelPage, Storage.Page and the other paging and record members require `Usable` (entry size at least 5, at least one entry per bank). With an entry size of 0 the C code divides by zero, and with one below 5 it reads records past the answer.
- Session.StorageStep, Session.StoragePage and the storage methods require `Ready`: the 5-byte entries and non-empty banks that packet.h's `dec_storage_info` sets. A context cleared by `appadmm_clear_context` has no storage geometry and would divide by zero in `enc_read_storage`.
- Session: the session is wired to packet.h, as protocol.c is (protocol.c:40). It therefore uses `Storage.PacketPage` and `Storage.PacketRecords` as written. The corrected paging `Storage.Page` is proved separately.
- Session.DeviceContext.Identify: the uninitialised `response` on the stack is the input `stack`, any `Information`. The method follows the code as written; the intended `Session.IdentifyFixed` is proved separately.
- Session.LiveStep, Session.StorageStep: the wrapper result `sent` is any C value, so both the written wrappers (`Session.RequestResult`) and the intended ones (`Session.RequestResultFixed`) can be plugged in. The paging of Session.StorageStep is the written `samples_read / 2`; the intended `Session.NextEntry` is proved separately.
- Transport.Framer.Receive follows src/tp/appa.c as written, so it uses `Transport.Verdict`. The intended behaviour is `Transport.ReceptionFixed`, and the round trip is proved against it.
- Session: the live callback's retr > 0 and retr == 0 read cases are `LiveFrame` and `LiveIncomplete`. An error read is `LiveFailed`.
- Session: an SR_ERR_BUG return from `appadmm_process_storage` in the storage callback is below SR_OK and aborts. Only the statuses of the `Status` datatype are modelled.
- Session: the channel and data-source enums are three-valued datatypes. Out-of-range enum values are not modelled.
- Session: NULL `sdi`, `devc` and packet arguments are not modelled, except where the code has a branch for it that matters (the checksum functions, `appadmm_clear_storage_info`, the B-series writers and validator).
- Session: `log_function_code` of a stored record is not set anywhere in the sources. It is the single input `logFn`.
- AppaB.Parse: the parser has no COUNT fallback, and its AC, DC and AC+DC lists omit the HFR and PV codes. Both are modelled as written.
- AppaB: the widths of `float *val` and the `sr_analog_meaning` fields are not modelled.
- Codec.CString, Codec.TrimLeft, Codec.TrimRight: the fact that the result is a prefix or suffix of the input is stated in the lemmas `CStringIsPrefix`, `TrimLeftIsSuffix` and `TrimRightIsPrefix`, not in the functions' own contracts.
- Codec.ReadInformationFields and Legacy500.DecodeInformation: after the text fields, the words are read at fixed offsets rather than through a moving read cursor. The cursor reaching byte 48 is asserted.
- Codec: the Read Information decoder of protocol_packet.h strips both texts after reading the words, and packet.h strips each text after copying it. Both give the same result, modelled once.
- Calibration, OTA and harmonics commands appear only in the size tables; the sources have no codecs for them.
- Request widths (`device_number`, `memory_address`, `data_length` of a Read Memory request) are unbounded integers in `Storage.PageRequest`. `Codec.EncodeReadMemory` requires them to fit their bytes.

## Findings

| source | as written | input that shows it | evidently intended | confidence | as-written member | corrected member |
|---|---|---|---|---|---|---|
| src/tp/appa.c:155-157 | the receive checksum sums `buffer[0..length)`, the first `length` bytes | the correct display request `55 55 01 00 AB`: zero bytes are summed, and 0 ≠ 0xAB gives SR_ERR_IO | sum header and data, `buffer[0..size-1)`, against the last byte | high; not executed | Transport.ReceiveRejectsCorrectFrame | Transport.EncodeReceiveRoundTrip |
| src/tp/appa.c:79-80 | the length is stored in `header[4]`, past the 4-byte array, and `header[3]` goes out uninitialised | any packet with 1..64 data bytes when the stale `header[3]` is 0: the receiver closes a 5-byte frame and never returns the packet | `header[3] = length` | high; not executed | Transport.SendMisframes | Transport.EncodeReceiveRoundTrip |
| src/hardware/appa-dmm/packet.h:608 | `data_length` is overwritten with 64 after the bank-end clamp | MEM entry 499 with the fixed geometry: 64 bytes = 12 records are read, 11 past the end of bank 0 | keep the clamped length of the entries left in the bank | medium; not executed | Storage.PacketPageOverrunsBank | Storage.PageStaysInBank |
| src/hardware/appa-dmm/packet.h:578-580 | `start > mem_count * entry_count` lets `start == mem_count * entry_count` through | MEM entry 1000 (2 banks of 500) is sent to device 2, which does not exist | `start >= mem_count * entry_count` is SR_ERR_ARG | high; not executed | Storage.PacketPageAcceptsEnd | Storage.PageIsInBounds |
| src/hardware/appa-dmm/protocol_packet.h:798-800 | the same `>` test in the newer revision | entry `mem_count * entry_count` passes both guards and names the bank after the last | `>=` | high; not executed | Storage.ModelPageOffByOne | Storage.PageIsInBounds |
| src/hardware/appa-dmm/protocol.c:69 | only `retr < SR_OK` stops identification, but after ten attempts without a frame `sr_tp_appa_send_receive` returns FALSE (0), which the `rere` wrapper passes on | a meter that never answers: FALSE passes the test, so vendor, model, version, serial number and `model_id` are taken from the uninitialised `response`, and 0 is returned | stop on anything below TRUE and store nothing without an answer | high; not executed | Session.IdentifyAcceptsSilence | Session.IdentifyFixed |
| src/hardware/appa-dmm/protocol.c:881-882 | the live callback tests the request wrapper's result with `< TRUE`, but `appadmm_request_read_display` passes on the SR_OK (0) of `sr_tp_appa_send`; the storage callback does the same at lines 962-963 | any request written: 0 is below TRUE, so the callback aborts without setting the latch | the wrappers return TRUE for a request written, or the callbacks test `< SR_OK` | high; not executed | Session.LiveRequestAborts | Session.LiveRequestFixed |
| src/hardware/appa-dmm/protocol.c:958-960 | the next page starts at `samples_read / 2`, which counts two samples per record | a single-display model reading 12 records from entry 0: `samples_read` becomes 12 and the next request starts at entry 6, so entries 6 to 11 are read again | start at `samples_read` divided by the samples each record sends | medium; not executed | Session.SingleDisplayRereads | Session.NextEntryFollowsPage |
