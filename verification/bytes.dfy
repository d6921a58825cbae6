/**
  Fixed-width integers of the C++ source and the byte-order readings the
  decoders use. Dafny integers are unbounded, so every width is a subset type
  and every two's-complement reinterpretation is written out.
 */
module Bytes {

  type byte = x: int | 0 <= x < 0x100
  type uint16 = x: int | 0 <= x < 0x1_0000
  type uint32 = x: int | 0 <= x < 0x1_0000_0000
  type int8 = x: int | -0x80 <= x < 0x80
  type int16 = x: int | -0x8000 <= x < 0x8000

  /** `(hi << 8) | lo`: a big-endian 16-bit field. */
  function BE16(hi: byte, lo: byte): (r: uint16)
    ensures r / 0x100 == hi && r % 0x100 == lo
  {
    hi * 0x100 + lo
  }

  /** `(high << 8) | low` over the wire order `low, high`: a little-endian 16-bit key. */
  function LE16(lo: byte, hi: byte): (r: uint16)
    ensures r / 0x100 == hi && r % 0x100 == lo
  {
    BE16(hi, lo)
  }

  /** The two wire bytes `[high, low]` of a 16-bit value, as an encoder writes them big-endian. */
  function Split16(x: uint16): (r: seq<byte>)
    ensures |r| == 2 && BE16(r[0], r[1]) == x
  {
    [x / 0x100, x % 0x100]
  }

  /** Four bytes shifted together, most significant first, as `parseTLM` does. */
  function BE32(b: seq<byte>): (r: uint32)
    requires |b| == 4
    ensures r == BE16(b[0], b[1]) * 0x1_0000 + BE16(b[2], b[3])
  {
    ((b[0] as int * 0x100 + b[1]) * 0x100 + b[2]) * 0x100 + b[3]
  }

  /** The four wire bytes of a 32-bit value, most significant first. */
  function Split32(x: uint32): (r: seq<byte>)
    ensures |r| == 4
  {
    var q1 := x / 0x100;
    var q2 := q1 / 0x100;
    [q2 / 0x100, q2 % 0x100, q1 % 0x100, x % 0x100]
  }

  /** Reading back the bytes an encoder writes gives the value it started from. */
  lemma BE32Split32(x: uint32)
    ensures BE32(Split32(x)) == x
  {
    var q1 := x / 0x100;
    var q2 := q1 / 0x100;
    assert x == q1 * 0x100 + x % 0x100;
    assert q1 == q2 * 0x100 + q1 % 0x100;
    assert q2 == (q2 / 0x100) * 0x100 + q2 % 0x100;
  }

  /** The bytes of a 16-bit field read big-endian are the bytes an encoder writes for it. */
  lemma Split16BE16(hi: byte, lo: byte)
    ensures Split16(BE16(hi, lo)) == [hi, lo]
  {
  }

  /** Four bytes read big-endian are the bytes an encoder writes for the value. */
  lemma Split32BE32(b: seq<byte>)
    requires |b| == 4
    ensures Split32(BE32(b)) == b
  {
    var x := BE32(b);
    var q1 := (b[0] as int * 0x100 + b[1]) * 0x100 + b[2];
    var q2 := b[0] as int * 0x100 + b[1];
    assert x == q1 * 0x100 + b[3];
    assert x / 0x100 == q1 && x % 0x100 == b[3];
    assert q1 / 0x100 == q2 && q1 % 0x100 == b[2];
    assert q2 / 0x100 == b[0] && q2 % 0x100 == b[1];
  }

  /** `(int8_t)b`: the two's-complement reading of a byte. */
  function ToInt8(b: byte): (r: int8)
    ensures r < 0 <==> b >= 0x80
    ensures (r + 0x100) % 0x100 == b
  {
    if b < 0x80 then b else b - 0x100
  }

  /** The byte an `int8_t` occupies on the wire. */
  function FromInt8(t: int8): (r: byte)
    ensures ToInt8(r) == t
  {
    if t < 0 then t + 0x100 else t
  }

  /** Reading a byte as signed loses nothing: the wire byte comes back. */
  lemma Int8RoundTrip(b: byte)
    ensures FromInt8(ToInt8(b)) == b
  {
  }

  /** `(int16_t)u`: the two's-complement reading of a 16-bit field. */
  function ToInt16(u: uint16): (r: int16)
    ensures r < 0 <==> u >= 0x8000
    ensures (r + 0x1_0000) % 0x1_0000 == u
  {
    if u < 0x8000 then u else u - 0x1_0000
  }

  /** The 16-bit pattern an `int16_t` occupies on the wire. */
  function FromInt16(t: int16): (r: uint16)
    ensures ToInt16(r) == t
  {
    if t < 0 then t + 0x1_0000 else t
  }

  /** Reading a 16-bit field as signed loses nothing: the wire pattern comes back. */
  lemma Int16RoundTrip(u: uint16)
    ensures FromInt16(ToInt16(u)) == u
  {
  }
}
