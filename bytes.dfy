/**
 * Byte-level vocabulary shared by every part of the APPA protocol engine:
 * libsigrok status codes, the 8-bit additive checksum, and the
 * little/big-endian field readers the codecs use.
 */
module Bytes {

  /** A `uint8_t`. */
  newtype byte = x: int | 0 <= x < 256

  /** The libsigrok status codes the engine returns (SR_OK, SR_ERR_*). */
  datatype Status = Ok | Err | ErrArg | ErrBug | ErrNa | ErrData | ErrIo

  datatype Option<T> = None | Some(value: T)

  /** A decoded value or the status code the C code returns instead. */
  datatype Result<T> = Success(value: T) | Failure(error: Status)

  /** The unbounded sum of a byte sequence. */
  function SumNat(s: seq<byte>): nat
  {
    if s == [] then 0 else s[0] as nat + SumNat(s[1..])
  }

  /** `uint8_t` addition: wraps modulo 256. */
  function Add8(x: byte, y: byte): byte
  {
    ((x as int + y as int) % 256) as byte
  }

  /**
   * The sum accumulated in a `uint8_t`, element by element from the front:
   * the checksum of every frame.
   */
  function Sum8(s: seq<byte>): byte
  {
    if s == [] then 0 else Add8(s[0], Sum8(s[1..]))
  }

  /** The 8-bit checksum is the byte sum taken modulo 256. */
  lemma {:induction false} Sum8IsSumMod(s: seq<byte>)
    ensures Sum8(s) as int == SumNat(s) % 256
  {
    if s != [] {
      Sum8IsSumMod(s[1..]);
    }
  }

  lemma Add8Assoc(x: byte, y: byte, z: byte)
    ensures Add8(x, Add8(y, z)) == Add8(Add8(x, y), z)
  {
    var s := x as int + y as int + z as int;
    assert Add8(x, Add8(y, z)) as int == s % 256;
    assert Add8(Add8(x, y), z) as int == s % 256;
  }

  /** The checksum of a concatenation is the wrapped sum of the parts. */
  lemma {:induction false} Sum8Append(a: seq<byte>, b: seq<byte>)
    ensures Sum8(a + b) == Add8(Sum8(a), Sum8(b))
  {
    if a != [] {
      assert (a + b)[0] == a[0] && (a + b)[1..] == a[1..] + b;
      Sum8Append(a[1..], b);
      Add8Assoc(a[0], Sum8(a[1..]), Sum8(b));
    } else {
      assert a + b == b;
    }
  }

  /** C's `/` on `int` for a positive divisor: truncates toward zero. */
  function CDiv(a: int, b: int): (q: int)
    requires b > 0
    ensures a >= 0 ==> q == a / b
    ensures a < 0 ==> q <= 0
  {
    if a >= 0 then a / b else -((-a) / b)
  }

  /** C's `%` on `int`: the remainder takes the sign of the dividend. */
  function CMod(a: int, b: int): (r: int)
    requires b > 0
    ensures a == b * CDiv(a, b) + r
    ensures a >= 0 ==> r == a % b
    ensures -b < r < b && (a >= 0 ==> r >= 0) && (a < 0 ==> r <= 0)
  {
    a - b * CDiv(a, b)
  }

  // ---------------------------------------------------------------------
  // Integer fields
  // ---------------------------------------------------------------------

  /** Unsigned 16-bit little-endian field at `s[at..at+2]` (read_u16le). */
  function U16le(s: seq<byte>, at: nat): (v: nat)
    requires at + 2 <= |s|
    ensures v < 0x10000
  {
    s[at] as nat + 256 * s[at + 1] as nat
  }

  /** Unsigned 16-bit big-endian field at `s[at..at+2]` (read_u16be). */
  function U16be(s: seq<byte>, at: nat): (v: nat)
    requires at + 2 <= |s|
    ensures v < 0x10000
  {
    256 * s[at] as nat + s[at + 1] as nat
  }

  /** Low and high byte of a 16-bit value (write_u16le). */
  function U16leBytes(v: nat): (r: seq<byte>)
    requires v < 0x10000
    ensures |r| == 2 && U16le(r, 0) == v
  {
    [(v % 256) as byte, (v / 256) as byte]
  }

  /** High and low byte of a 16-bit value, in big-endian order. */
  function U16beBytes(v: nat): (r: seq<byte>)
    requires v < 0x10000
    ensures |r| == 2 && U16be(r, 0) == v
  {
    [(v / 256) as byte, (v % 256) as byte]
  }

  /**
   * Signed 24-bit little-endian field (read_i24le): the two's-complement
   * value of `b0 | b1 << 8 | b2 << 16`.
   */
  function I24le(s: seq<byte>, at: nat): (v: int)
    requires at + 3 <= |s|
    ensures -0x80_0000 <= v < 0x80_0000
  {
    var raw := s[at] as int + 256 * s[at + 1] as int + 65536 * s[at + 2] as int;
    if raw >= 0x80_0000 then raw - 0x100_0000 else raw
  }

  /** Signed 24-bit big-endian field, as the 500-series frames carry it. */
  function I24be(s: seq<byte>, at: nat): (v: int)
    requires at + 3 <= |s|
    ensures -0x80_0000 <= v < 0x80_0000
  {
    I24le([s[at + 2], s[at + 1], s[at]], 0)
  }

  /** The three little-endian bytes of a 24-bit two's-complement value. */
  function I24leBytes(v: int): (r: seq<byte>)
    requires -0x80_0000 <= v < 0x80_0000
    ensures |r| == 3
  {
    var raw := if v < 0 then v + 0x100_0000 else v;
    [(raw % 256) as byte, (raw / 256 % 256) as byte, (raw / 65536) as byte]
  }

  /** Every 24-bit reading survives encoding and decoding. */
  lemma I24RoundTrip(v: int)
    requires -0x80_0000 <= v < 0x80_0000
    ensures I24le(I24leBytes(v), 0) == v
  {
    var raw := if v < 0 then v + 0x100_0000 else v;
    var r := I24leBytes(v);
    assert r[0] as int + 256 * r[1] as int + 65536 * r[2] as int == raw;
  }

  /** Distinct byte triples decode to distinct readings. */
  lemma I24Injective(s: seq<byte>, t: seq<byte>)
    requires |s| == 3 && |t| == 3
    requires I24le(s, 0) == I24le(t, 0)
    ensures s == t
  {
    var rs := s[0] as int + 256 * s[1] as int + 65536 * s[2] as int;
    var rt := t[0] as int + 256 * t[1] as int + 65536 * t[2] as int;
    assert rs == rt;
    assert s[2] as int == rs / 65536 && t[2] as int == rt / 65536;
    assert s[1] as int == rs % 65536 / 256 && t[1] as int == rt % 65536 / 256;
  }

  // ---------------------------------------------------------------------
  // Bit fields
  // ---------------------------------------------------------------------

  /** `b & 0x7f`: the 7-bit code of a code/flag byte. */
  function Low7(b: byte): (v: nat)
    ensures v < 128
  {
    b as nat % 128
  }

  /** `b >> 7`: the flag bit of a code/flag byte. */
  function High1(b: byte): (v: nat)
    ensures v < 2
  {
    b as nat / 128
  }

  /** `b & 7`: the 3-bit dot position. */
  function Low3(b: byte): (v: nat)
    ensures v < 8
  {
    b as nat % 8
  }

  /** `b >> 3`: the 5-bit unit code. */
  function High5(b: byte): (v: nat)
    ensures v < 32
  {
    b as nat / 8
  }

  /** The byte a code/flag pair is packed into. */
  function Pack71(code: nat, flag: nat): (b: byte)
    requires code < 128 && flag < 2
    ensures Low7(b) == code && High1(b) == flag
  {
    (code + 128 * flag) as byte
  }

  /** The byte a dot/unit pair is packed into. */
  function Pack35(dot: nat, unit: nat): (b: byte)
    requires dot < 8 && unit < 32
    ensures Low3(b) == dot && High5(b) == unit
  {
    (dot + 8 * unit) as byte
  }

  /** Splitting a byte into 7+1 bits loses nothing. */
  lemma Split71(b: byte)
    ensures Pack71(Low7(b), High1(b)) == b
  {
  }

  /** Splitting a byte into 3+5 bits loses nothing. */
  lemma Split35(b: byte)
    ensures Pack35(Low3(b), High5(b)) == b
  {
  }
}
