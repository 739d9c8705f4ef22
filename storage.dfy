/**
 * MEM/LOG storage: the storage-information block a meter keeps in its
 * EEPROM, the paging arithmetic that turns an entry number into a Read
 * Memory request, and the decoding of a page of stored records.
 *
 * src/hardware/appa-dmm/packet.h (the revision protocol.c is built with)
 * and src/hardware/appa-dmm/protocol_packet.h (the newer, model-aware
 * revision) differ in all three operations, so each is modelled twice.
 */
module Storage {
  import opened Bytes
  import opened Catalog
  import Codec

  /**
   * `appadmm_storage_info_s`: what a storage area holds and where. packet.h
   * and protocol.c call the interval `rate`; only protocol_packet.h has
   * `mem_start`, the device number of the area's first bank.
   */
  datatype StorageInfo = StorageInfo(amount: int, interval: int, entrySize: int, entryCount: int,
                                     memOffset: int, memCount: int, memStart: int)

  /** Slots of `storage_info[]` (`APPADMM_STORAGE_MEM`, `APPADMM_STORAGE_LOG`). */
  const Mem: nat := 0
  const Log: nat := 1

  /** The bytes of one stored record that carry a reading. */
  const RecordSize: nat := 5

  /** Where and how large the entries of one storage area are. */
  datatype Geometry = Geometry(entrySize: int, entryCount: int, memOffset: int, memCount: int)

  function WithGeometry(s: StorageInfo, g: Geometry): (r: StorageInfo)
    ensures r.amount == s.amount && r.interval == s.interval && r.memStart == s.memStart
    ensures r.entrySize == g.entrySize && r.entryCount == g.entryCount
    ensures r.memOffset == g.memOffset && r.memCount == g.memCount
  {
    s.(entrySize := g.entrySize, entryCount := g.entryCount, memOffset := g.memOffset, memCount := g.memCount)
  }

  /** A geometry the paging arithmetic can divide by. */
  predicate Usable(s: StorageInfo)
  {
    s.entrySize >= RecordSize && s.entryCount > 0
  }

  /** The response of a Read Memory request: 64 data bytes and a fill count. */
  predicate ResponseShape(data: seq<byte>, dataLength: int)
  {
    |data| == FrameMaxDataSize && 0 <= dataLength <= FrameMaxDataSize
  }

  /** The storage-information block is read as a 6-byte Read Memory answer. */
  const InfoSize: nat := 6

  // ---------------------------------------------------------------------
  // Storage information, packet.h
  // ---------------------------------------------------------------------

  /** packet.h's fixed geometry: 2 banks of 500 MEM entries at 0x500. */
  const MemGeometry := Geometry(5, 500, 0x500, 2)

  /** packet.h's fixed geometry: 4 banks of 10000 LOG entries at 0x1000. */
  const LogGeometry := Geometry(5, 10000, 0x1000, 4)

  /**
   * packet.h `appadmm_dec_storage_info`: anything but 6 bytes is
   * SR_ERR_DATA; otherwise LOG rate, LOG amount and MEM amount as
   * big-endian words, and the fixed MEM and LOG geometry.
   */
  function PacketStorageInfo(slots: seq<StorageInfo>, data: seq<byte>, dataLength: int): (r: Result<seq<StorageInfo>>)
    requires |slots| >= 2 && ResponseShape(data, dataLength)
    ensures r.Failure? <==> dataLength != InfoSize as int
    ensures r.Failure? ==> r.error == ErrData
    ensures r.Success? ==> |r.value| == |slots| && r.value[2..] == slots[2..]
  {
    if dataLength != InfoSize as int then Failure(ErrData)
    else
      var log := slots[Log].(interval := U16be(data, 0), amount := U16be(data, 2));
      var mem := slots[Mem].(amount := U16be(data, 4));
      Success(slots[Log := WithGeometry(log, LogGeometry)][Mem := WithGeometry(mem, MemGeometry)])
  }

  /**
   * The 6-byte block a meter keeps: LOG rate, LOG amount, MEM amount as
   * big-endian words (packet.h's reading of it).
   */
  function PacketInfoBlock(rate: nat, logAmount: nat, memAmount: nat, rest: seq<byte>): (data: seq<byte>)
    requires rate < 0x10000 && logAmount < 0x10000 && memAmount < 0x10000 && |rest| == 58
    ensures |data| == FrameMaxDataSize
  {
    U16beBytes(rate) + U16beBytes(logAmount) + U16beBytes(memAmount) + rest
  }

  /**
   * The three words of the block come back in their slots, both areas get
   * the fixed geometry, and the MEM interval and both `mem_start` values
   * are left as they were.
   */
  lemma PacketStorageInfoReads(slots: seq<StorageInfo>, rate: nat, logAmount: nat, memAmount: nat, rest: seq<byte>)
    requires |slots| >= 2
    requires rate < 0x10000 && logAmount < 0x10000 && memAmount < 0x10000 && |rest| == 58
    ensures var r := PacketStorageInfo(slots, PacketInfoBlock(rate, logAmount, memAmount, rest), 6);
      && r.Success?
      && r.value[Log] == StorageInfo(logAmount, rate, 5, 10000, 0x1000, 4, slots[Log].memStart)
      && r.value[Mem] == StorageInfo(memAmount, slots[Mem].interval, 5, 500, 0x500, 2, slots[Mem].memStart)
  {
    var data := PacketInfoBlock(rate, logAmount, memAmount, rest);
    assert data[0..2] == U16beBytes(rate);
    assert data[2..4] == U16beBytes(logAmount);
    assert data[4..6] == U16beBytes(memAmount);
    assert U16be(data, 0) == U16be(data[0..2], 0);
    assert U16be(data, 2) == U16be(data[2..4], 0);
    assert U16be(data, 4) == U16be(data[4..6], 0);
  }

  /** packet.h `appadmm_dec_storage_info`, writing into the caller's array. */
  method DecodePacketStorageInfo(response: Codec.MemoryResponse, slots: array<StorageInfo>) returns (status: Status)
    requires response.Valid() && slots.Length >= 2
    modifies slots
    ensures var r := PacketStorageInfo(old(slots[..]), response.data[..], response.dataLength);
      && (r.Failure? ==> status == r.error && slots[..] == old(slots[..]))
      && (r.Success? ==> status == Ok && slots[..] == r.value)
  {
    if response.dataLength != InfoSize {
      return ErrData;
    }
    var rd := 0;
    slots[Log] := slots[Log].(interval := U16be(response.data[..], rd));
    rd := rd + 2;
    slots[Log] := slots[Log].(amount := U16be(response.data[..], rd));
    rd := rd + 2;
    slots[Mem] := slots[Mem].(amount := U16be(response.data[..], rd));
    slots[Mem] := WithGeometry(slots[Mem], MemGeometry);
    slots[Log] := WithGeometry(slots[Log], LogGeometry);
    status := Ok;
  }

  // ---------------------------------------------------------------------
  // Storage information, protocol_packet.h
  // ---------------------------------------------------------------------

  /**
   * The per-series geometry constants `APPADMM_STORAGE_150_*`,
   * `APPADMM_STORAGE_200_500_*` and `APPADMM_STORAGE_170_S_*`; their values
   * are not part of this model, so they are a parameter.
   */
  datatype Geometries = Geometries(mem150: Geometry, log150: Geometry, mem200: Geometry, log200: Geometry,
                                   log170: Geometry, logStart170: int)

  predicate Series150(model: nat)
  {
    model in {Model150, Model150B}
  }

  predicate Series200500(model: nat)
  {
    model in {Model208, Model208B, Model501, Model502, Model503, Model505, Model506, Model506B, Model506B2}
  }

  predicate Series170S(model: nat)
  {
    model in {ModelS1, ModelS2, ModelS3, Model172, Model173, Model175, Model177, Model179}
  }

  /** One 4-byte metadata slot of a 170/S-series meter: interval, amount. */
  predicate LiveSlot(data: seq<byte>, k: nat)
    requires 4 * k + 4 <= |data|
  {
    U16be(data, 4 * k) != 0xff && U16be(data, 4 * k + 2) != 0xff
  }

  /**
   * The rotating-metadata loop of the 170/S series from slot `k` on: each
   * slot overwrites interval and amount, and the first live one also sets
   * the LOG geometry and `mem_start` and ends the loop.
   */
  function Rotation(log: StorageInfo, data: seq<byte>, k: nat, g: Geometries): StorageInfo
    requires k <= 4 && |data| >= 16
    decreases 4 - k
  {
    if k == 4 then log
    else
      var next := log.(interval := U16be(data, 4 * k), amount := U16be(data, 4 * k + 2));
      if LiveSlot(data, k) then WithGeometry(next, g.log170).(memStart := g.logStart170)
      else Rotation(next, data, k + 1, g)
  }

  /**
   * protocol_packet.h `appadmm_dec_storage_info`: anything but 6 bytes is
   * SR_ERR_DATA; the word order depends on the series; a model without
   * storage keeps everything and still answers SR_OK.
   */
  function ModelStorageInfo(model: nat, slots: seq<StorageInfo>, data: seq<byte>, dataLength: int, g: Geometries)
    : (r: Result<seq<StorageInfo>>)
    requires |slots| >= 2 && ResponseShape(data, dataLength)
    ensures r.Failure? <==> dataLength != InfoSize as int
    ensures r.Failure? ==> r.error == ErrData
    ensures r.Success? ==> |r.value| == |slots| && r.value[2..] == slots[2..]
  {
    if dataLength != InfoSize as int then Failure(ErrData)
    else if Series150(model) then
      var mem := slots[Mem].(amount := U16be(data, 0));
      var log := slots[Log].(amount := U16be(data, 2), interval := U16be(data, 4));
      Success(slots[Mem := WithGeometry(mem, g.mem150)][Log := WithGeometry(log, g.log150)])
    else if Series200500(model) then
      var log := slots[Log].(interval := U16be(data, 0), amount := U16be(data, 2));
      var mem := slots[Mem].(amount := U16be(data, 4));
      Success(slots[Mem := WithGeometry(mem, g.mem200)][Log := WithGeometry(log, g.log200)])
    else if Series170S(model) then
      Success(slots[Log := Rotation(slots[Log], data, 0, g)])
    else Success(slots)
  }

  /** A model without MEM/LOG support changes nothing and gets SR_OK. */
  lemma UnsupportedModelKeepsInfo(model: nat, slots: seq<StorageInfo>, data: seq<byte>, g: Geometries)
    requires |slots| >= 2 && |data| == FrameMaxDataSize
    requires !Series150(model) && !Series200500(model) && !Series170S(model)
    ensures ModelStorageInfo(model, slots, data, 6, g) == Success(slots)
  {
  }

  /** The three big-endian words at the head of a block. */
  function Words(data: seq<byte>): (w: (nat, nat, nat))
    requires |data| >= 6
    ensures w.0 < 0x10000 && w.1 < 0x10000 && w.2 < 0x10000
  {
    (U16be(data, 0), U16be(data, 2), U16be(data, 4))
  }

  lemma WordsOfBlock(a: nat, b: nat, c: nat, rest: seq<byte>)
    requires a < 0x10000 && b < 0x10000 && c < 0x10000
    ensures Words(U16beBytes(a) + U16beBytes(b) + U16beBytes(c) + rest) == (a, b, c)
  {
    var data := U16beBytes(a) + U16beBytes(b) + U16beBytes(c) + rest;
    assert data[0..2] == U16beBytes(a) && data[2..4] == U16beBytes(b) && data[4..6] == U16beBytes(c);
    assert U16be(data, 0) == U16be(data[0..2], 0);
    assert U16be(data, 2) == U16be(data[2..4], 0);
    assert U16be(data, 4) == U16be(data[4..6], 0);
  }

  /**
   * The 150 series stores MEM amount, LOG amount, LOG interval; the 200
   * and 500 series store LOG interval, LOG amount, MEM amount. Each block
   * comes back in the right fields with its series' geometry.
   */
  lemma ModelStorageInfoOrder(model: nat, slots: seq<StorageInfo>, a: nat, b: nat, c: nat, rest: seq<byte>, g: Geometries)
    requires |slots| >= 2 && a < 0x10000 && b < 0x10000 && c < 0x10000 && |rest| == 58
    requires Series150(model) || Series200500(model)
    ensures var r := ModelStorageInfo(model, slots, U16beBytes(a) + U16beBytes(b) + U16beBytes(c) + rest, 6, g);
      && r.Success?
      && (Series150(model) ==>
            && r.value[Mem] == WithGeometry(slots[Mem].(amount := a), g.mem150)
            && r.value[Log] == WithGeometry(slots[Log].(amount := b, interval := c), g.log150))
      && (Series200500(model) ==>
            && r.value[Log] == WithGeometry(slots[Log].(interval := a, amount := b), g.log200)
            && r.value[Mem] == WithGeometry(slots[Mem].(amount := c), g.mem200))
  {
    WordsOfBlock(a, b, c, rest);
  }

  /**
   * The rotation settles on the first live slot: interval and amount come
   * from it and the 170/S geometry is set. With no live slot the LOG area
   * keeps its geometry and holds the last slot's words.
   */
  lemma {:induction false} RotationPicksFirstLive(log: StorageInfo, data: seq<byte>, k: nat, g: Geometries)
    requires k <= 4 && |data| >= 16
    ensures forall j :: k <= j < 4 && LiveSlot(data, j) && (forall i :: k <= i < j ==> !LiveSlot(data, i)) ==>
      Rotation(log, data, k, g) ==
        WithGeometry(log.(interval := U16be(data, 4 * j), amount := U16be(data, 4 * j + 2)), g.log170).(memStart := g.logStart170)
    ensures (forall i :: k <= i < 4 ==> !LiveSlot(data, i)) && k < 4 ==>
      Rotation(log, data, k, g) == log.(interval := U16be(data, 12), amount := U16be(data, 14))
    decreases 4 - k
  {
    if k < 4 {
      var next := log.(interval := U16be(data, 4 * k), amount := U16be(data, 4 * k + 2));
      RotationPicksFirstLive(next, data, k + 1, g);
      forall j | k < j < 4 && LiveSlot(data, j) && (forall i :: k <= i < j ==> !LiveSlot(data, i))
        ensures Rotation(log, data, k, g) ==
          WithGeometry(log.(interval := U16be(data, 4 * j), amount := U16be(data, 4 * j + 2)), g.log170).(memStart := g.logStart170)
      {
        assert !LiveSlot(data, k);
        assert next.(interval := U16be(data, 4 * j), amount := U16be(data, 4 * j + 2))
          == log.(interval := U16be(data, 4 * j), amount := U16be(data, 4 * j + 2));
      }
      if (forall i :: k <= i < 4 ==> !LiveSlot(data, i)) && k < 3 {
        assert !LiveSlot(data, k);
        assert next.(interval := U16be(data, 12), amount := U16be(data, 14))
          == log.(interval := U16be(data, 12), amount := U16be(data, 14));
      }
    }
  }

  /**
   * The 170/S loop of protocol_packet.h `appadmm_dec_storage_info`: each
   * 4-byte slot overwrites the LOG interval and amount until a live one
   * sets the geometry and ends the loop.
   */
  method RotateLog(slots: array<StorageInfo>, data: seq<byte>, g: Geometries)
    requires slots.Length >= 2 && |data| >= 16
    modifies slots
    ensures slots[..] == old(slots[..])[Log := Rotation(old(slots[Log]), data, 0, g)]
  {
    ghost var start := slots[Log];
    var rd := 0;
    var k := 0;
    while k < 4
      invariant 0 <= k <= 4 && rd == 4 * k
      invariant Rotation(start, data, 0, g) == Rotation(slots[Log], data, k, g)
      invariant slots[..] == old(slots[..])[Log := slots[Log]]
    {
      slots[Log] := slots[Log].(interval := U16be(data, rd));
      slots[Log] := slots[Log].(amount := U16be(data, rd + 2));
      rd := rd + 4;
      if slots[Log].interval != 0xff && slots[Log].amount != 0xff {
        slots[Log] := WithGeometry(slots[Log], g.log170).(memStart := g.logStart170);
        break;
      }
      k := k + 1;
    }
  }

  /** protocol_packet.h `appadmm_dec_storage_info`, writing the context's slots. */
  method DecodeModelStorageInfo(model: nat, response: Codec.MemoryResponse, slots: array<StorageInfo>, g: Geometries)
    returns (status: Status)
    requires response.Valid() && slots.Length >= 2
    modifies slots
    ensures var r := ModelStorageInfo(model, old(slots[..]), response.data[..], response.dataLength, g);
      && (r.Failure? ==> status == r.error && slots[..] == old(slots[..]))
      && (r.Success? ==> status == Ok && slots[..] == r.value)
  {
    if response.dataLength != InfoSize {
      return ErrData;
    }
    var data := response.data[..];
    var rd := 0;
    if Series150(model) {
      slots[Mem] := slots[Mem].(amount := U16be(data, rd));
      slots[Log] := slots[Log].(amount := U16be(data, rd + 2));
      slots[Log] := slots[Log].(interval := U16be(data, rd + 4));
      slots[Mem] := WithGeometry(slots[Mem], g.mem150);
      slots[Log] := WithGeometry(slots[Log], g.log150);
    } else if Series200500(model) {
      slots[Log] := slots[Log].(interval := U16be(data, rd));
      slots[Log] := slots[Log].(amount := U16be(data, rd + 2));
      slots[Mem] := slots[Mem].(amount := U16be(data, rd + 4));
      slots[Mem] := WithGeometry(slots[Mem], g.mem200);
      slots[Log] := WithGeometry(slots[Log], g.log200);
    } else if Series170S(model) {
      RotateLog(slots, data, g);
    }
    status := Ok;
  }

  // ---------------------------------------------------------------------
  // Paging: entry number to Read Memory request
  // ---------------------------------------------------------------------

  /** A Read Memory request as the paging arithmetic fills it in. */
  datatype PageRequest = PageRequest(deviceNumber: int, memoryAddress: int, dataLength: int)

  /** How many entries the whole area holds: `mem_count * entry_count`. */
  function Capacity(s: StorageInfo): int
  {
    s.memCount * s.entryCount
  }

  /** The most entries one 64-byte answer carries. */
  function PageEntries(s: StorageInfo): (n: int)
    requires Usable(s)
    ensures 0 <= n <= 12
  {
    FrameMaxDataSize / s.entrySize
  }

  /** The entry count after clamping to what one answer carries. */
  function PageClamp(s: StorageInfo, count: int): (n: int)
    requires Usable(s)
    ensures n <= PageEntries(s)
  {
    if count > PageEntries(s) then PageEntries(s) else count
  }

  /**
   * protocol_packet.h's length rule: a page that would cross the end of
   * the bank covers the entries left in it, any other page a full 64 bytes.
   */
  function PageLength(s: StorageInfo, position: int, count: int): int
    requires Usable(s)
  {
    if position + PageClamp(s, count) > s.entryCount then (s.entryCount - position) * s.entrySize
    else FrameMaxDataSize
  }

  // Arithmetic facts the paging proofs use.

  lemma MulCancel(b: int, q: int, m: int)
    requires b > 0 && b * q < b * m
    ensures q < m
  {
  }

  lemma MulMonotone(k: int, j: int, b: int)
    requires k <= j && b > 0
    ensures k * b <= j * b
  {
  }

  lemma QuotientBelow(a: int, b: int, m: int)
    requires b > 0 && 0 <= a < m * b
    ensures a / b < m
  {
    assert b * (a / b) <= a;
    MulCancel(b, a / b, m);
  }

  lemma ExactQuotient(n: int, b: int)
    requires b > 0
    ensures (n * b) / b == n && (n * b) % b == 0
  {
    var q, r := (n * b) / b, (n * b) % b;
    assert b * q + r == b * n;
    assert 0 <= r < b;
    if q < n {
      MulMonotone(q + 1, n, b);
    } else if q > n {
      MulMonotone(n + 1, q, b);
    }
  }

  /** The length rule never asks for more than one answer's 64 bytes, nor for nothing. */
  lemma PageLengthBound(s: StorageInfo, position: int, count: int)
    requires Usable(s) && position < s.entryCount
    ensures 0 < PageLength(s, position, count) <= FrameMaxDataSize
  {
    var n := PageClamp(s, count);
    if position + n > s.entryCount {
      MulMonotone(s.entryCount - position, PageEntries(s), s.entrySize);
      assert PageEntries(s) * s.entrySize <= FrameMaxDataSize;
    }
  }

  /**
   * packet.h `appadmm_enc_read_storage` as written: an entry beyond
   * `mem_count * entry_count` is SR_ERR_ARG; the device is the bank index,
   * the address the entry's offset in its bank; a device beyond
   * `mem_count` is SR_ERR_BUG; the length is then always 64.
   */
  function PacketPage(s: StorageInfo, start: int, count: int): (r: Result<PageRequest>)
    requires Usable(s)
    ensures r.Success? ==> r.value.dataLength == FrameMaxDataSize
  {
    if start > Capacity(s) then Failure(ErrArg)
    else
      var position := CMod(start, s.entryCount);
      var device := CDiv(start, s.entryCount);
      if device > s.memCount then Failure(ErrBug)
      else Success(PageRequest(device, s.memOffset + position * s.entrySize, FrameMaxDataSize))
  }

  /** packet.h `appadmm_enc_read_storage`, with its shrinking loop. */
  method EncodePacketPage(s: StorageInfo, start: int, count: int) returns (r: Result<PageRequest>)
    requires Usable(s)
    ensures r == PacketPage(s, start, count)
  {
    if start > s.memCount * s.entryCount {
      return Failure(ErrArg);
    }
    var position := CMod(start, s.entryCount);
    var n := count;
    if n > FrameMaxDataSize / s.entrySize {
      n := FrameMaxDataSize / s.entrySize;
    }
    if position + n > s.entryCount {
      n := s.entryCount - position;
    }
    var device := CDiv(start, s.entryCount);
    var address := s.memOffset + position * s.entrySize;
    var length := n * s.entrySize;
    while length > FrameMaxDataSize
      decreases length
    {
      length := length - s.entrySize;
    }
    if device > s.memCount {
      return Failure(ErrBug);
    }
    length := FrameMaxDataSize;
    r := Success(PageRequest(device, address, length));
  }

  /**
   * protocol_packet.h `appadmm_enc_read_storage` as written: like packet.h,
   * but the device is offset by `mem_start` and the length follows
   * `PageLength`, capped at 64.
   */
  function ModelPage(s: StorageInfo, start: int, count: int): (r: Result<PageRequest>)
    requires Usable(s)
  {
    if start > Capacity(s) then Failure(ErrArg)
    else
      var position := CMod(start, s.entryCount);
      var length := PageLength(s, position, count);
      var device := CDiv(start, s.entryCount) + s.memStart;
      if device > s.memCount + s.memStart then Failure(ErrBug)
      else Success(PageRequest(device, s.memOffset + position * s.entrySize,
                               if length > FrameMaxDataSize then FrameMaxDataSize else length))
  }

  /** Every request protocol_packet.h builds asks for 1 to 64 bytes. */
  lemma ModelPageLength(s: StorageInfo, start: int, count: int)
    requires Usable(s) && ModelPage(s, start, count).Success?
    ensures 0 < ModelPage(s, start, count).value.dataLength <= FrameMaxDataSize
  {
    PageLengthBound(s, CMod(start, s.entryCount), count);
  }

  /** protocol_packet.h `appadmm_enc_read_storage`. */
  method EncodeModelPage(s: StorageInfo, start: int, count: int) returns (r: Result<PageRequest>)
    requires Usable(s)
    ensures r == ModelPage(s, start, count)
  {
    if start > s.memCount * s.entryCount {
      return Failure(ErrArg);
    }
    var position := CMod(start, s.entryCount);
    var n := count;
    if n > FrameMaxDataSize / s.entrySize {
      n := FrameMaxDataSize / s.entrySize;
    }
    var length;
    if position + n > s.entryCount {
      n := s.entryCount - position;
      length := n * s.entrySize;
    } else {
      length := FrameMaxDataSize;
    }
    var device := CDiv(start, s.entryCount) + s.memStart;
    var address := s.memOffset + position * s.entrySize;
    if length > FrameMaxDataSize {
      length := FrameMaxDataSize;
    }
    if device > s.memCount + s.memStart {
      return Failure(ErrBug);
    }
    r := Success(PageRequest(device, address, length));
  }

  /**
   * The intended paging: entries `0 .. mem_count * entry_count - 1` exist,
   * every other entry number is SR_ERR_ARG; the length rule is
   * protocol_packet.h's.
   */
  function Page(s: StorageInfo, start: int, count: int): (r: Result<PageRequest>)
    requires Usable(s)
  {
    if start < 0 || start >= Capacity(s) then Failure(ErrArg)
    else
      var position := start % s.entryCount;
      Success(PageRequest(start / s.entryCount + s.memStart, s.memOffset + position * s.entrySize,
                          PageLength(s, position, count)))
  }

  /**
   * The intended paging accepts exactly the stored entries, names one of
   * the area's banks, addresses the entry inside its bank, and asks for at
   * most one answer's worth of bytes.
   */
  lemma PageIsInBounds(s: StorageInfo, start: int, count: int)
    requires Usable(s)
    ensures Page(s, start, count).Success? <==> 0 <= start < Capacity(s)
    ensures Page(s, start, count).Failure? ==> Page(s, start, count).error == ErrArg
    ensures Page(s, start, count).Success? ==>
      var q := Page(s, start, count).value;
      && s.memStart <= q.deviceNumber < s.memStart + s.memCount
      && (q.deviceNumber - s.memStart) * s.entryCount + (q.memoryAddress - s.memOffset) / s.entrySize == start
      && (q.memoryAddress - s.memOffset) % s.entrySize == 0
      && 0 < q.dataLength <= FrameMaxDataSize
  {
    if 0 <= start < Capacity(s) {
      var position := start % s.entryCount;
      QuotientBelow(start, s.entryCount, s.memCount);
      ExactQuotient(position, s.entrySize);
      PageLengthBound(s, position, count);
    }
  }

  /**
   * When the caller asks for a full page (protocol.c passes 0xff), every
   * record the answer is decoded into lies inside the entry's bank.
   */
  lemma PageStaysInBank(s: StorageInfo, start: int, count: int)
    requires Usable(s) && count >= PageEntries(s) && Page(s, start, count).Success?
    ensures start % s.entryCount + Page(s, start, count).value.dataLength / s.entrySize <= s.entryCount
  {
    var position := start % s.entryCount;
    if position + PageEntries(s) > s.entryCount {
      ExactQuotient(s.entryCount - position, s.entrySize);
    }
  }

  /**
   * protocol_packet.h agrees with the intended paging on every stored
   * entry; the one entry number it accepts beyond them is
   * `mem_count * entry_count`, which names the bank after the last.
   */
  lemma ModelPageOffByOne(s: StorageInfo, start: int, count: int)
    requires Usable(s) && s.memCount >= 0 && start >= 0
    ensures start != Capacity(s) ==> ModelPage(s, start, count) == Page(s, start, count)
    ensures start == Capacity(s) ==>
      ModelPage(s, start, count).Success? && ModelPage(s, start, count).value.deviceNumber == s.memStart + s.memCount
  {
    var position := CMod(start, s.entryCount);
    if start < Capacity(s) {
      QuotientBelow(start, s.entryCount, s.memCount);
      PageLengthBound(s, position, count);
    } else if start == Capacity(s) {
      ExactQuotient(s.memCount, s.entryCount);
    }
  }

  /**
   * packet.h accepts the entry after the last one, too: with its MEM
   * geometry, entry 1000 is sent to device 2 of a two-bank area.
   */
  lemma PacketPageAcceptsEnd()
    ensures var s := WithGeometry(StorageInfo(0, 0, 0, 0, 0, 0, 0), MemGeometry);
      PacketPage(s, 1000, 0xff) == Success(PageRequest(2, 0x500, 64))
      && Page(s, 1000, 0xff) == Failure(ErrArg)
  {
    assert CDiv(1000, 500) == 2 && CMod(1000, 500) == 0;
  }

  /**
   * packet.h always asks for 64 bytes: for MEM entry 499, the last of
   * bank 0, it reads twelve records, eleven of them past the bank's end,
   * where the intended paging asks for the one record left.
   */
  lemma PacketPageOverrunsBank()
    ensures var s := WithGeometry(StorageInfo(0, 0, 0, 0, 0, 0, 0), MemGeometry);
      && PacketPage(s, 499, 0xff) == Success(PageRequest(0, 0x500 + 499 * 5, 64))
      && 499 + 64 / 5 > 500
      && Page(s, 499, 0xff) == Success(PageRequest(0, 0x500 + 499 * 5, 5))
  {
    assert CDiv(499, 500) == 0 && CMod(499, 500) == 499;
  }

  /**
   * With the geometry packet.h sets and any entry the caller can reach,
   * both revisions agree on device and address; only the length differs.
   */
  lemma PacketAndModelPageAddress(s: StorageInfo, start: int, count: int)
    requires Usable(s) && s.memStart == 0 && 0 <= start < Capacity(s)
    ensures PacketPage(s, start, count).Success? && ModelPage(s, start, count).Success?
    ensures PacketPage(s, start, count).value.deviceNumber == ModelPage(s, start, count).value.deviceNumber
    ensures PacketPage(s, start, count).value.memoryAddress == ModelPage(s, start, count).value.memoryAddress
  {
    QuotientBelow(start, s.entryCount, s.memCount);
  }

  // ---------------------------------------------------------------------
  // Decoding a page of records
  // ---------------------------------------------------------------------

  /** How many records an answer of `dataLength` bytes holds. */
  function RecordCount(s: StorageInfo, dataLength: int): (n: nat)
    requires Usable(s) && 0 <= dataLength <= FrameMaxDataSize
    ensures n <= 12 && n * s.entrySize <= dataLength
  {
    dataLength / s.entrySize
  }

  /**
   * packet.h `appadmm_dec_read_storage`: `data_length / entry_size`
   * records read back to back, five bytes each.
   */
  function PacketRecords(s: StorageInfo, data: seq<byte>, dataLength: int): (r: seq<Codec.DisplayData>)
    requires Usable(s) && ResponseShape(data, dataLength)
    ensures |r| == RecordCount(s, dataLength)
  {
    var n := RecordCount(s, dataLength);
    seq(n, i requires 0 <= i < n => Codec.DecodeDisplayData(data, RecordSize * i))
  }

  /**
   * protocol_packet.h `appadmm_dec_read_storage`: the same records, each
   * followed by `entry_size - 5` fill bytes that are skipped.
   */
  function ModelRecords(s: StorageInfo, data: seq<byte>, dataLength: int): (r: seq<Codec.DisplayData>)
    requires Usable(s) && ResponseShape(data, dataLength)
    ensures |r| == RecordCount(s, dataLength)
  {
    var n := RecordCount(s, dataLength);
    seq(n, i requires 0 <= i < n => Codec.DecodeDisplayData(data, s.entrySize * i))
  }

  /** Entry `i` of a page lies inside the bytes the answer carries. */
  lemma EntryInside(s: StorageInfo, dataLength: int, i: nat)
    requires Usable(s) && 0 <= dataLength <= FrameMaxDataSize && i < RecordCount(s, dataLength)
    ensures s.entrySize * i + RecordSize <= dataLength
  {
    MulMonotone(i + 1, RecordCount(s, dataLength), s.entrySize);
  }

  /** One stride further along: `w * (i + 1)`. */
  lemma NextStride(w: int, i: int)
    ensures w * (i + 1) == w * i + w
  {
  }

  /** With 5-byte entries there are no fill bytes and both revisions agree. */
  lemma RecordsAgreeWithoutFill(s: StorageInfo, data: seq<byte>, dataLength: int)
    requires Usable(s) && ResponseShape(data, dataLength) && s.entrySize == RecordSize as int
    ensures PacketRecords(s, data, dataLength) == ModelRecords(s, data, dataLength)
  {
  }

  /** Where chunk `i` of a run with stride `w` starts: `w * i`, step by step. */
  function Offset(w: nat, i: nat): nat
  {
    if i == 0 then 0 else Offset(w, i - 1) + w
  }

  lemma {:induction false} OffsetIsProduct(w: nat, i: nat)
    ensures Offset(w, i) == w * i
  {
    if i > 0 {
      OffsetIsProduct(w, i - 1);
    }
  }

  /** The bytes a meter stores for a run of 5-byte records, each followed by `fill`. */
  function Pack(chunks: seq<seq<byte>>, fill: seq<byte>): (r: seq<byte>)
    requires forall j :: 0 <= j < |chunks| ==> |chunks[j]| == RecordSize
    ensures |r| == Offset(RecordSize + |fill|, |chunks|)
  {
    if chunks == [] then [] else chunks[0] + fill + Pack(chunks[1..], fill)
  }

  lemma SliceLeft<T>(a: seq<T>, b: seq<T>, x: int, y: int)
    requires 0 <= x <= y <= |a|
    ensures (a + b)[x..y] == a[x..y]
  {
  }

  lemma SliceRight<T>(a: seq<T>, b: seq<T>, x: int, y: int)
    requires |a| <= x <= y <= |a| + |b|
    ensures (a + b)[x..y] == b[x - |a|..y - |a|]
  {
  }

  /** Chunk `i` of a packed run starts one stride per chunk into it. */
  lemma {:induction false} PackAt(chunks: seq<seq<byte>>, fill: seq<byte>, i: nat)
    requires forall j :: 0 <= j < |chunks| ==> |chunks[j]| == RecordSize
    requires i < |chunks|
    ensures Offset(RecordSize + |fill|, i) + RecordSize <= |Pack(chunks, fill)|
    ensures var at := Offset(RecordSize + |fill|, i);
      Pack(chunks, fill)[at..at + RecordSize] == chunks[i]
  {
    var w := RecordSize + |fill|;
    var head := chunks[0] + fill;
    var tail := Pack(chunks[1..], fill);
    assert Pack(chunks, fill) == head + tail;
    if i == 0 {
      SliceLeft(head, tail, 0, RecordSize);
      SliceLeft(chunks[0], fill, 0, RecordSize);
    } else {
      PackAt(chunks[1..], fill, i - 1);
      var at := Offset(w, i);
      SliceRight(head, tail, at, at + RecordSize);
    }
  }

  /** The stored form of a run of records. */
  function Encoded(records: seq<Codec.DisplayData>): (r: seq<seq<byte>>)
    requires forall j :: 0 <= j < |records| ==> Codec.DisplayDataFits(records[j])
    ensures |r| == |records| && forall j :: 0 <= j < |r| ==> |r[j]| == RecordSize
  {
    seq(|records|, j requires 0 <= j < |records| => Codec.EncodeDisplayData(records[j]))
  }

  /**
   * Round trip of a storage page: records a meter packed with its fill
   * bytes come back out of the protocol_packet.h decoder, in order.
   */
  lemma ModelRecordsRoundTrip(s: StorageInfo, records: seq<Codec.DisplayData>, fill: seq<byte>, rest: seq<byte>)
    requires Usable(s) && forall j :: 0 <= j < |records| ==> Codec.DisplayDataFits(records[j])
    requires |fill| == s.entrySize - RecordSize
    requires |records| * s.entrySize + |rest| == FrameMaxDataSize
    ensures |Pack(Encoded(records), fill) + rest| == FrameMaxDataSize
    ensures ModelRecords(s, Pack(Encoded(records), fill) + rest, |records| * s.entrySize) == records
  {
    var n := |records|;
    OffsetIsProduct(s.entrySize, n);
    ExactQuotient(n, s.entrySize);
    forall i | 0 <= i < n
      ensures ModelRecords(s, Pack(Encoded(records), fill) + rest, n * s.entrySize)[i] == records[i]
    {
      RecordAt(records, fill, rest, i);
      OffsetIsProduct(s.entrySize, i);
    }
  }

  lemma RecordAt(records: seq<Codec.DisplayData>, fill: seq<byte>, rest: seq<byte>, i: nat)
    requires forall j :: 0 <= j < |records| ==> Codec.DisplayDataFits(records[j])
    requires i < |records|
    ensures Offset(RecordSize + |fill|, i) + RecordSize <= |Pack(Encoded(records), fill) + rest|
    ensures Codec.DecodeDisplayData(Pack(Encoded(records), fill) + rest, Offset(RecordSize + |fill|, i)) == records[i]
  {
    var chunks := Encoded(records);
    var packed := Pack(chunks, fill);
    var at := Offset(RecordSize + |fill|, i);
    PackAt(chunks, fill, i);
    assert (packed + rest)[at..at + RecordSize] == Codec.EncodeDisplayData(records[i]) by {
      SliceLeft(packed, rest, at, at + RecordSize);
    }
    Codec.DisplayDataRoundTrip(records[i], packed + rest, at);
  }

  /** packet.h `appadmm_dec_read_storage`, filling the caller's record array. */
  method DecodePacketRecords(response: Codec.MemoryResponse, s: StorageInfo, records: array<Codec.DisplayData>)
    returns (status: Status)
    requires response.Valid() && Usable(s) && records.Length >= RecordCount(s, response.dataLength)
    modifies records
    ensures status == Ok
    ensures var n := RecordCount(s, response.dataLength);
      records[..n] == PacketRecords(s, response.data[..], response.dataLength)
      && records[n..] == old(records[n..])
  {
    var data := response.data[..];
    var n := response.dataLength / s.entrySize;
    var rd := 0;
    for i := 0 to n
      invariant rd == RecordSize * i
      invariant forall k :: 0 <= k < i ==> records[k] == Codec.DecodeDisplayData(data, RecordSize * k)
      invariant records[n..] == old(records[n..])
    {
      records[i] := Codec.DecodeDisplayData(data, rd);
      rd := rd + RecordSize;
    }
    status := Ok;
  }

  /** protocol_packet.h `appadmm_dec_read_storage`, skipping fill bytes. */
  method DecodeModelRecords(response: Codec.MemoryResponse, s: StorageInfo, records: array<Codec.DisplayData>)
    returns (status: Status)
    requires response.Valid() && Usable(s) && records.Length >= RecordCount(s, response.dataLength)
    modifies records
    ensures status == Ok
    ensures var n := RecordCount(s, response.dataLength);
      records[..n] == ModelRecords(s, response.data[..], response.dataLength)
      && records[n..] == old(records[n..])
  {
    var data := response.data[..];
    var n := response.dataLength / s.entrySize;
    ghost var expected := ModelRecords(s, data, response.dataLength);
    var rd := 0;
    for i := 0 to n
      invariant rd == s.entrySize * i
      invariant records[..i] == expected[..i]
      invariant records[n..] == old(records[n..])
    {
      EntryInside(s, response.dataLength, i);
      records[i] := Codec.DecodeDisplayData(data, rd);
      assert records[..i + 1] == expected[..i + 1];
      rd := rd + RecordSize;
      for y := 0 to s.entrySize - RecordSize
        invariant rd == s.entrySize * i + RecordSize + y
      {
        rd := rd + 1;
      }
      NextStride(s.entrySize, i);
    }
    status := Ok;
  }
}
