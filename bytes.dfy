/** Bytes and the fixed-width integer encodings the Opus headers use. */
module Bytes {

  type byte = b: int | 0 <= b < 256

  const TWO_16: int := 0x1_0000
  const TWO_31: int := 0x8000_0000
  const TWO_32: int := 0x1_0000_0000

  predicate IsAscii(s: string) {
    forall i :: 0 <= i < |s| ==> s[i] as int < 128
  }

  /** The bytes of an ASCII string, as Buffer.from(s, 'ascii') gives them. */
  function Ascii(s: string): (r: seq<byte>)
    requires IsAscii(s)
    ensures |r| == |s|
  {
    seq(|s|, i requires 0 <= i < |s| => s[i] as int)
  }

  /** Little-endian unsigned 32-bit encoding (Buffer.writeUInt32LE). */
  function U32LE(n: int): (r: seq<byte>)
    requires 0 <= n < TWO_32
    ensures |r| == 4
  {
    [n % 256, (n / 256) % 256, (n / 0x1_0000) % 256, (n / 0x100_0000) % 256]
  }

  /** Reads a little-endian unsigned 32-bit value from the first four bytes. */
  function ReadU32LE(b: seq<byte>): (n: int)
    requires |b| >= 4
    ensures 0 <= n < TWO_32
  {
    b[0] as int + 256 * b[1] as int + 0x1_0000 * b[2] as int + 0x100_0000 * b[3] as int
  }

  /** Reads a little-endian unsigned 16-bit value from the first two bytes. */
  function ReadU16LE(b: seq<byte>): (n: int)
    requires |b| >= 2
    ensures 0 <= n < TWO_16
  {
    b[0] as int + 256 * b[1] as int
  }

  /** Reads a little-endian two's-complement 16-bit value from the first two bytes. */
  function ReadI16LE(b: seq<byte>): (n: int)
    requires |b| >= 2
    ensures -TWO_16 / 2 <= n < TWO_16 / 2
  {
    var u := ReadU16LE(b);
    if u < TWO_16 / 2 then u else u - TWO_16
  }

  /** Decoding an encoded value gives the value back. */
  lemma U32LERoundTrip(n: int)
    requires 0 <= n < TWO_32
    ensures ReadU32LE(U32LE(n)) == n
  {
    var q1 := n / 256;
    var q2 := q1 / 256;
    var q3 := q2 / 256;
    assert n == n % 256 + 256 * q1;
    assert q1 == q1 % 256 + 256 * q2;
    assert q2 == q2 % 256 + 256 * q3;
    assert n / 0x1_0000 == q2 && n / 0x100_0000 == q3;
    assert q3 < 256;
  }

  /** Encoding decoded bytes gives the bytes back: U32LE and ReadU32LE are inverse. */
  lemma ReadU32LERoundTrip(b: seq<byte>)
    requires |b| == 4
    ensures U32LE(ReadU32LE(b)) == b
  {
    var n := ReadU32LE(b);
    var b0, b1, b2, b3 := b[0] as int, b[1] as int, b[2] as int, b[3] as int;
    var m2 := b2 + 256 * b3;
    var m1 := b1 + 256 * m2;
    assert n == b0 + 256 * m1;
    assert n % 256 == b0 && n / 256 == m1;
    assert n == (b0 + 256 * b1) + 0x1_0000 * m2;
    assert n / 0x1_0000 == m2 && m2 % 256 == b2;
    var low := b0 + 256 * b1 + 0x1_0000 * b2;
    assert 0 <= low < 0x100_0000 && n == low + 0x100_0000 * b3;
    assert n / 0x100_0000 == b3;
  }

  /**
   * The conversion of a Number to a C `int` through N-API (napi_get_value_int32):
   * an integral value is reduced modulo 2^32 into the signed 32-bit range.
   */
  function ToInt32(n: int): (r: int)
    ensures -TWO_31 <= r < TWO_31
    ensures (r - n) % TWO_32 == 0
    ensures -TWO_31 <= n < TWO_31 ==> r == n
  {
    (n + TWO_31) % TWO_32 - TWO_31
  }
}
