/**
 * The APPA transport framer (src/tp/appa.c, src/tp/appa.h).
 *
 * A frame on the wire is `55 55 command length data[length] checksum`.
 * The receive side is a byte-by-byte scanner that keeps the partial frame
 * in a 69-byte buffer; the send side writes header, payload and checksum.
 */
module Transport {
  import opened Bytes

  const StartByte: byte := 0x55
  const MaxDataSize: nat := 64
  const HeaderSize: nat := 4
  const ChecksumSize: nat := 1
  /** Header plus data: the largest length `send` lets through. */
  const MaxPayloadSize: nat := MaxDataSize + HeaderSize
  const MaxFrameSize: nat := MaxPayloadSize + ChecksumSize
  /** Milliseconds a send/receive exchange waits for its answer. */
  const ReceiveTimeout: nat := 500
  /** One receive attempt is made every 50 ms of the timeout. */
  const ReceiveAttempts: nat := ReceiveTimeout / 50
  /** Bytes one receive call reads from the port at most. */
  const ReadChunkSize: nat := MaxFrameSize * 3

  /** `struct sr_tp_appa_packet`: command, length and the payload bytes. */
  datatype Packet = Packet(command: byte, length: byte, data: seq<byte>)

  /** What one `serial_read_nonblocking` call produced. */
  datatype ReadOutcome = ReadFailed(error: Status) | ReadBytes(bytes: seq<byte>)

  /**
   * The value of `sr_tp_appa_receive`: TRUE with a packet, FALSE (nothing
   * complete yet) or an error code.
   */
  datatype Receipt = Frame(packet: Packet) | NoFrame | Failed(error: Status)

  /** The value of `sr_tp_appa_send_receive`. */
  datatype Exchange = SendFailed(error: Status) | Reply(receipt: Receipt)

  lemma FrameSizes()
    ensures MaxFrameSize == 69 && MaxPayloadSize == 68 && ReceiveAttempts == 10
    ensures MaxFrameSize == MaxDataSize + HeaderSize + ChecksumSize
    ensures ReadChunkSize == 207
  {
  }

  // ---------------------------------------------------------------------
  // The receive scanner, as a specification on sequences
  // ---------------------------------------------------------------------

  /** The start bytes and the two length-gated header bytes are in order. */
  predicate HeaderOk(acc: seq<byte>)
  {
    && (|acc| > 0 ==> acc[0] == StartByte)
    && (|acc| > 1 ==> acc[1] == StartByte)
    && (|acc| > 2 ==> acc[2] as nat <= MaxDataSize)
    && (|acc| > 3 ==> acc[3] as nat <= MaxDataSize)
  }

  /** A frame is complete when its size equals length + header + checksum. */
  predicate Complete(acc: seq<byte>)
  {
    |acc| > HeaderSize && acc[3] as nat + HeaderSize + ChecksumSize == |acc|
  }

  /** What the buffer holds between two bytes: an unfinished frame. */
  predicate Partial(acc: seq<byte>)
  {
    HeaderOk(acc) && (|acc| > HeaderSize ==> |acc| < acc[3] as nat + HeaderSize + ChecksumSize)
  }

  /**
   * How the scanner takes one byte (src/tp/appa.c:126-143): with an empty
   * buffer a non-start byte is skipped; with one byte buffered a non-start
   * byte empties the buffer; a command or length byte above 64 empties the
   * buffer; every other byte is appended.
   */
  function Gate(acc: seq<byte>, b: byte): (r: seq<byte>)
    requires Partial(acc)
    ensures Partial(r) || (Complete(r) && HeaderOk(r))
    ensures |r| <= MaxFrameSize
  {
    if |acc| < 1 && b != StartByte then acc
    else if 1 <= |acc| < 2 && b != StartByte then []
    else if 2 <= |acc| < 4 && b as nat > MaxDataSize then []
    else acc + [b]
  }

  /**
   * The first frame the scanner completes, starting from the partial frame
   * `acc` and reading `chunk`; bytes after it are never looked at.
   */
  function ScanFrame(acc: seq<byte>, chunk: seq<byte>): (r: Option<seq<byte>>)
    requires Partial(acc)
    ensures r.Some? ==> Complete(r.value) && HeaderOk(r.value)
    decreases |chunk|
  {
    if chunk == [] then None
    else
      var next := Gate(acc, chunk[0]);
      if Complete(next) then Some(next) else ScanFrame(next, chunk[1..])
  }

  /**
   * The checksum test of the receive path AS WRITTEN (src/tp/appa.c:155-171):
   * it sums the first `length` bytes of the buffer, not header and payload.
   */
  function Verdict(frame: seq<byte>): Receipt
    requires Complete(frame)
  {
    if Sum8(frame[..frame[3]]) == frame[|frame| - 1]
    then Frame(Packet(frame[2], frame[3], frame[HeaderSize..|frame| - 1]))
    else Failed(ErrIo)
  }

  /** The intended checksum test: header and payload against the last byte. */
  function VerdictFixed(frame: seq<byte>): Receipt
    requires Complete(frame)
  {
    if Sum8(frame[..|frame| - 1]) == frame[|frame| - 1]
    then Frame(Packet(frame[2], frame[3], frame[HeaderSize..|frame| - 1]))
    else Failed(ErrIo)
  }

  /** What one receive call returns, as written. */
  function Reception(acc: seq<byte>, read: ReadOutcome): Receipt
    requires Partial(acc)
  {
    match read
    case ReadFailed(e) => Failed(e)
    case ReadBytes(bytes) =>
      match ScanFrame(acc, bytes)
      case None => NoFrame
      case Some(frame) => Verdict(frame)
  }

  /** The receive call with the intended checksum span. */
  function ReceptionFixed(acc: seq<byte>, read: ReadOutcome): Receipt
    requires Partial(acc)
  {
    match read
    case ReadFailed(e) => Failed(e)
    case ReadBytes(bytes) =>
      match ScanFrame(acc, bytes)
      case None => NoFrame
      case Some(frame) => VerdictFixed(frame)
  }

  // ---------------------------------------------------------------------
  // Properties of the scanner
  // ---------------------------------------------------------------------

  /**
   * The byte-level rules of the scanner: what it skips, what empties the
   * buffer, and that the overflow guard (src/tp/appa.c:176-179) is
   * unreachable because no partial frame grows past 69 bytes.
   */
  lemma GateRules(acc: seq<byte>, b: byte)
    requires Partial(acc)
    ensures |acc| == 0 ==> (Gate(acc, b) == [] <==> b != StartByte)
    ensures |acc| == 1 ==> (Gate(acc, b) == [] <==> b != StartByte)
    ensures 2 <= |acc| < 4 ==> (Gate(acc, b) == [] <==> b as nat > MaxDataSize)
    ensures Gate(acc, b) != [] ==> Gate(acc, b) == acc + [b]
    ensures |acc| < MaxFrameSize
  {
  }

  /** A scan that succeeds on a chunk succeeds identically on any extension. */
  lemma {:induction false} ScanIgnoresTail(acc: seq<byte>, chunk: seq<byte>, tail: seq<byte>)
    requires Partial(acc)
    requires ScanFrame(acc, chunk).Some?
    ensures ScanFrame(acc, chunk + tail) == ScanFrame(acc, chunk)
    decreases |chunk|
  {
    assert (chunk + tail)[0] == chunk[0];
    var next := Gate(acc, chunk[0]);
    if !Complete(next) {
      assert (chunk + tail)[1..] == chunk[1..] + tail;
      ScanIgnoresTail(next, chunk[1..], tail);
    }
  }

  /** Noise without a start byte in front of a frame is skipped. */
  lemma {:induction false} ScanSkipsNoise(noise: seq<byte>, rest: seq<byte>)
    requires forall i :: 0 <= i < |noise| ==> noise[i] != StartByte
    ensures ScanFrame([], noise + rest) == ScanFrame([], rest)
  {
    if noise != [] {
      assert (noise + rest)[0] == noise[0];
      assert (noise + rest)[1..] == noise[1..] + rest;
      ScanSkipsNoise(noise[1..], rest);
    } else {
      assert noise + rest == rest;
    }
  }

  /** A delivered packet has at most 64 data bytes and a command of at most 64. */
  lemma ReceivedPacketBounds(acc: seq<byte>, read: ReadOutcome)
    requires Partial(acc)
    requires Reception(acc, read).Frame?
    ensures var p := Reception(acc, read).packet;
      p.command as nat <= MaxDataSize && p.length as nat <= MaxDataSize && |p.data| == p.length as nat
  {
  }

  /**
   * A well-formed frame `g` that the input begins with (after the bytes
   * already buffered) is completed exactly at its last byte.
   */
  lemma {:induction false} ScanCompletes(g: seq<byte>, k: nat, rest: seq<byte>)
    requires Complete(g) && HeaderOk(g) && k < |g|
    ensures Partial(g[..k])
    ensures ScanFrame(g[..k], g[k..] + rest) == Some(g)
    decreases |g| - k
  {
    var chunk := g[k..] + rest;
    assert chunk[0] == g[k];
    assert g[..k] + [g[k]] == g[..k + 1];
    if k + 1 < |g| {
      assert chunk[1..] == g[k + 1..] + rest;
      ScanCompletes(g, k + 1, rest);
    } else {
      assert g[..k + 1] == g;
    }
  }

  // ---------------------------------------------------------------------
  // Sending
  // ---------------------------------------------------------------------

  /**
   * The bytes `sr_tp_appa_send` writes AS WRITTEN (src/tp/appa.c:62-102).
   * The header array has four cells but the length is stored into
   * `header[4]`, so `header[3]` goes out holding whatever byte `stale` the
   * stack held. A length of 65 to 68 passes the `> 68` gate and reads
   * past the 64-byte data array into the bytes `beyond` it.
   * `shortWrite` says whether one of the three writes came back short.
   */
  function SendFrame(p: Packet, stale: byte, beyond: seq<byte>, shortWrite: bool): (r: Result<seq<byte>>)
    requires |p.data| == MaxDataSize && |beyond| == MaxPayloadSize - MaxDataSize
    ensures r == Failure(ErrData) <==> p.length as nat > MaxPayloadSize
    ensures r == Failure(ErrIo) <==> p.length as nat <= MaxPayloadSize && shortWrite
    ensures r.Success? ==>
              && |r.value| == p.length as nat + HeaderSize + ChecksumSize
              && r.value[..4] == [StartByte, StartByte, p.command, stale]
              && r.value[HeaderSize..|r.value| - 1] == (p.data + beyond)[..p.length]
              && r.value[|r.value| - 1] == Add8(Sum8(r.value[..HeaderSize]), Sum8(r.value[HeaderSize..|r.value| - 1]))
  {
    if p.length as nat > MaxPayloadSize then Failure(ErrData)
    else
      var header := [StartByte, StartByte, p.command, stale];
      var payload := (p.data + beyond)[..p.length];
      var checksum := Add8(Sum8(header), Sum8(payload));
      if shortWrite then Failure(ErrIo) else Success(header + payload + [checksum])
  }

  /**
   * The frame the send path evidently intends: the length in `header[3]`,
   * at most 64 data bytes, and the checksum over header and data.
   */
  function EncodeFrame(p: Packet): (r: Result<seq<byte>>)
    requires |p.data| == MaxDataSize
    ensures r.Success? <==> p.length as nat <= MaxDataSize
    ensures r.Success? ==> |r.value| == p.length as nat + HeaderSize + ChecksumSize
  {
    if p.length as nat > MaxDataSize then Failure(ErrData)
    else
      var header := [StartByte, StartByte, p.command, p.length];
      var payload := p.data[..p.length];
      Success(header + payload + [Add8(Sum8(header), Sum8(payload))])
  }

  /**
   * Round trip of the intended framing: a packet with a command the
   * scanner admits comes back whole from the corrected receive path.
   */
  lemma EncodeReceiveRoundTrip(p: Packet, rest: seq<byte>)
    requires |p.data| == MaxDataSize
    requires p.command as nat <= MaxDataSize && p.length as nat <= MaxDataSize
    ensures EncodeFrame(p).Success?
    ensures ReceptionFixed([], ReadBytes(EncodeFrame(p).value + rest))
         == Frame(Packet(p.command, p.length, p.data[..p.length]))
  {
    var g := EncodeFrame(p).value;
    var header := [StartByte, StartByte, p.command, p.length];
    var payload := p.data[..p.length];
    assert g[3] == p.length;
    ScanCompletes(g, 0, rest);
    assert g[..0] == [] && g[0..] == g;
    assert g[..|g| - 1] == header + payload;
    Sum8Append(header, payload);
    assert g[HeaderSize..|g| - 1] == payload;
  }

  /**
   * The as-written receive rejects a correct frame: the display request
   * `55 55 01 00 AB` carries the right checksum, but the scanner sums
   * zero bytes and compares 0 with 0xAB.
   */
  lemma ReceiveRejectsCorrectFrame()
    ensures Complete([0x55, 0x55, 0x01, 0x00, 0xAB])
    ensures Verdict([0x55, 0x55, 0x01, 0x00, 0xAB]) == Failed(ErrIo)
    ensures VerdictFixed([0x55, 0x55, 0x01, 0x00, 0xAB]) == Frame(Packet(0x01, 0x00, []))
  {
    var f: seq<byte> := [0x55, 0x55, 0x01, 0x00, 0xAB];
    var h: seq<byte> := [0x55, 0x55, 0x01, 0x00];
    assert f[..4] == h && f[..0] == [];
    assert h[1..] == [0x55, 0x01, 0x00] && h[1..][1..] == [0x01, 0x00] && h[1..][1..][1..] == [0x00];
    assert Sum8([0x00]) == 0x00 by { assert [0x00 as byte][1..] == []; }
    assert Sum8([0x01, 0x00]) == 0x01;
    assert Sum8([0x55, 0x01, 0x00]) == 0x56;
    assert Sum8(h) == 0xAB;
  }

  /**
   * The as-written send never gets a packet with data across when the
   * stale `header[3]` byte is 0: the receiver closes the frame after five
   * bytes, so whatever it reports is not the packet that was sent.
   */
  lemma SendMisframes(p: Packet, beyond: seq<byte>, rest: seq<byte>)
    requires |p.data| == MaxDataSize && |beyond| == MaxPayloadSize - MaxDataSize
    requires p.command as nat <= MaxDataSize && 1 <= p.length as nat <= MaxDataSize
    ensures SendFrame(p, 0, beyond, false).Success?
    ensures var sent := SendFrame(p, 0, beyond, false).value;
      Reception([], ReadBytes(sent + rest)) != Frame(Packet(p.command, p.length, p.data[..p.length]))
      && ReceptionFixed([], ReadBytes(sent + rest)) != Frame(Packet(p.command, p.length, p.data[..p.length]))
  {
    var sent := SendFrame(p, 0, beyond, false).value;
    var g := sent[..5];
    assert Complete(g) && HeaderOk(g);
    ScanCompletes(g, 0, sent[5..] + rest);
    assert g[..0] == [] && g[0..] + (sent[5..] + rest) == sent + rest;
  }

  // ---------------------------------------------------------------------
  // The transport instance
  // ---------------------------------------------------------------------

  /** `struct sr_tp_appa_inst`: the receive buffer and its fill count. */
  class Framer {
    const buffer: array<byte>
    /** `uint8_t buffer_size`; `Valid` keeps it within 0..69. */
    var bufferSize: nat

    ghost predicate Valid()
      reads this, buffer
    {
      buffer.Length == MaxFrameSize && bufferSize <= MaxFrameSize && Partial(buffer[..bufferSize])
    }

    /** The partial frame collected so far. */
    ghost function Contents(): seq<byte>
      reads this, buffer
      requires Valid()
    {
      buffer[..bufferSize]
    }

    constructor ()
      ensures Valid() && Contents() == [] && fresh(buffer)
    {
      buffer := new byte[MaxFrameSize];
      bufferSize := 0;
    }

    /** `sr_tp_appa_buffer_reset`: empty the buffer and zero the header. */
    method Reset()
      requires buffer.Length == MaxFrameSize
      modifies this, buffer
      ensures Valid() && Contents() == []
      ensures buffer[..HeaderSize] == [0, 0, 0, 0]
      ensures buffer[HeaderSize..] == old(buffer[HeaderSize..])
    {
      bufferSize := 0;
      buffer[0] := 0;
      buffer[1] := 0;
      buffer[2] := 0;
      buffer[3] := 0;
    }

    /**
     * `sr_tp_appa_receive`: scan the bytes of one read. A failed read is
     * returned untouched; otherwise the first completed frame is judged
     * and the buffer always ends empty, so no partial frame and no byte
     * after the first frame carries over to the next call.
     */
    method Receive(read: ReadOutcome) returns (r: Receipt)
      requires Valid()
      requires read.ReadFailed? ==> read.error != Ok
      requires read.ReadBytes? ==> |read.bytes| <= ReadChunkSize
      modifies this, buffer
      ensures Valid()
      ensures r == Reception(old(Contents()), read)
      ensures read.ReadFailed? ==> Contents() == old(Contents())
      ensures read.ReadBytes? ==> Contents() == [] && buffer[..HeaderSize] == [0, 0, 0, 0]
    {
      if read.ReadFailed? {
        return Failed(read.error);
      }
      var bytes := read.bytes;
      ghost var start := Contents();
      r := NoFrame;
      var i := 0;
      while i < |bytes|
        invariant 0 <= i <= |bytes|
        invariant Valid()
        invariant ScanFrame(start, bytes) == ScanFrame(Contents(), bytes[i..])
        invariant r == NoFrame
      {
        ghost var before := Contents();
        assert bytes[i..][0] == bytes[i] && bytes[i..][1..] == bytes[i + 1..];
        var complete := Take(bytes[i]);
        if complete {
          r := Judge();
          break;
        }
        i := i + 1;
      }
      Reset();
    }

    /**
     * One pass of the receive loop body up to the completion test
     * (src/tp/appa.c:126-152): gate the byte, append it, and say whether
     * the buffer now holds a complete frame.
     */
    method Take(b: byte) returns (complete: bool)
      requires Valid()
      modifies this, buffer
      ensures buffer.Length == MaxFrameSize && bufferSize <= MaxFrameSize
      ensures buffer[..bufferSize] == Gate(old(Contents()), b)
      ensures complete <==> Complete(buffer[..bufferSize])
      ensures !complete ==> Valid()
    {
      ghost var before := Contents();
      if bufferSize < 1 {
        if b != StartByte {
          return false;
        }
      } else if bufferSize < 2 {
        if b != StartByte {
          Reset();
          return false;
        }
      } else if bufferSize < 4 {
        if b as nat > MaxDataSize {
          Reset();
          return false;
        }
      }
      // The overflow guard of the source never fires: a partial frame is
      // shorter than its announced size, which is at most 69.
      assert bufferSize < MaxFrameSize;
      buffer[bufferSize] := b;
      bufferSize := bufferSize + 1;
      assert buffer[..bufferSize] == before + [b];
      complete := bufferSize > HeaderSize && buffer[3] as nat + HeaderSize + ChecksumSize == bufferSize;
    }

    /**
     * The checksum test and packet copy of a completed frame
     * (src/tp/appa.c:154-171).
     */
    method Judge() returns (r: Receipt)
      requires buffer.Length == MaxFrameSize && bufferSize <= MaxFrameSize
      requires Complete(buffer[..bufferSize])
      ensures r == Verdict(buffer[..bufferSize])
    {
      ghost var frame := buffer[..bufferSize];
      assert frame[..frame[3]] == buffer[..buffer[3]];
      var cs := Checksum(buffer, buffer[3]);
      if cs == buffer[bufferSize - 1] {
        r := Frame(Packet(buffer[2], buffer[3], buffer[HeaderSize..bufferSize - 1]));
      } else {
        r := Failed(ErrIo);
      }
    }

    /**
     * `sr_tp_appa_send_receive` after a send: up to ten receive attempts,
     * stopping at the first error or the first delivered packet. `replies`
     * holds what each attempt's read would produce.
     */
    method SendReceive(sent: Result<seq<byte>>, replies: seq<ReadOutcome>) returns (r: Exchange, attempts: nat)
      requires Valid()
      requires |replies| == ReceiveAttempts
      requires forall k :: 0 <= k < |replies| ==> WellFormedRead(replies[k])
      modifies this, buffer
      ensures Valid()
      ensures r == Retry(old(Contents()), sent, replies)
      ensures attempts <= ReceiveAttempts
      ensures sent.Failure? ==> attempts == 0
    {
      if sent.Failure? {
        return SendFailed(sent.error), 0;
      }
      var receipt := NoFrame;
      attempts := 0;
      var cycles := ReceiveAttempts;
      while cycles > 0
        invariant 0 <= cycles <= ReceiveAttempts && attempts == ReceiveAttempts - cycles
        invariant Valid()
        invariant Attempts(old(Contents()), replies, 0) == Attempts(Contents(), replies, attempts)
        invariant receipt == NoFrame
      {
        cycles := cycles - 1;
        receipt := Receive(replies[attempts]);
        attempts := attempts + 1;
        if receipt.Failed? || receipt.Frame? {
          break;
        }
      }
      r := Reply(receipt);
    }
  }

  /** A read of at most 207 bytes, or a failure with an error code. */
  predicate WellFormedRead(read: ReadOutcome)
  {
    match read
    case ReadFailed(e) => e != Ok
    case ReadBytes(bytes) => |bytes| <= ReadChunkSize
  }

  /**
   * The receive attempts from the `k`-th on: each read is scanned from
   * what the previous one left behind (nothing, after a completed read).
   */
  function Attempts(acc: seq<byte>, replies: seq<ReadOutcome>, k: nat): Receipt
    requires Partial(acc) && k <= |replies|
    decreases |replies| - k
  {
    if k == |replies| then NoFrame
    else
      var receipt := Reception(acc, replies[k]);
      if receipt.Failed? || receipt.Frame? then receipt
      else Attempts([], replies, k + 1)
  }

  /** The value of one exchange: the send's error, or the attempts' outcome. */
  function Retry(acc: seq<byte>, sent: Result<seq<byte>>, replies: seq<ReadOutcome>): Exchange
    requires Partial(acc)
  {
    if sent.Failure? then SendFailed(sent.error) else Reply(Attempts(acc, replies, 0))
  }

  /**
   * `sr_tp_appa_checksum`: the `uint8_t` sum of `data[0..size)`, counted
   * down from the end; 0 for a NULL buffer (src/tp/appa.c:217-229).
   */
  method Checksum(data: array?<byte>, size: byte) returns (cs: byte)
    requires data != null ==> size as nat <= data.Length
    ensures data == null ==> cs == 0
    ensures data != null ==> cs == Sum8(data[..size]) && cs as nat == SumNat(data[..size]) % 256
  {
    if data == null {
      return 0;
    }
    cs := 0;
    var n := size as nat;
    while n > 0
      invariant 0 <= n <= size as nat
      invariant cs == Sum8(data[n..size])
    {
      n := n - 1;
      assert data[n..size] == [data[n]] + data[n + 1..size];
      cs := Add8(data[n], cs);
    }
    Sum8IsSumMod(data[..size]);
    assert data[0..size] == data[..size];
  }
}
