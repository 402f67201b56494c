/**
 * Octets, Java's 32-bit `int`, and the byte-level conversions the SAM library
 * relies on: narrowing casts, sign extension and unsigned big-endian extraction.
 */
module Bytes {

  /** An octet; Java's signed `byte` is the same 8 bits read as two's complement. */
  type Byte = b: int | 0 <= b < 0x100

  const Int32Min: int := -0x8000_0000
  const Int32Max: int := 0x7FFF_FFFF

  /** Java's `int`. */
  type int32 = x: int | -0x8000_0000 <= x <= 0x7FFF_FFFF

  /** Java `int` arithmetic: the exact result reduced modulo 2^32 into the signed range. */
  function Wrap32(x: int): (r: int32)
    ensures Int32Min <= x <= Int32Max ==> r == x
    ensures (x - r) % 0x1_0000_0000 == 0
  {
    (x + 0x8000_0000) % 0x1_0000_0000 - 0x8000_0000
  }

  /** The Java cast `(byte) x`: the low eight bits of a two's-complement integer. */
  function LowByte(x: int): (b: Byte)
    ensures 0 <= x < 0x100 ==> b == x
    ensures (x - b) % 0x100 == 0
  {
    x % 0x100
  }

  /** Java's widening of a `byte` to `int`: bit 7 is the sign. */
  function SignExtend(b: Byte): (x: int32)
    ensures -0x80 <= x < 0x80
    ensures LowByte(x) == b
    ensures x < 0 <==> b >= 0x80
  {
    if b < 0x80 then b else b - 0x100
  }

  /**
   * `ByteArrayUtil.extractInt(d, off, 3, false)`: the three bytes at `off`
   * read as an unsigned big-endian number.
   */
  function ExtractUnsigned24(d: seq<Byte>, off: nat): (v: int)
    requires off + 3 <= |d|
    ensures 0 <= v < 0x100_0000
  {
    (d[off] as int) * 0x1_0000 + (d[off + 1] as int) * 0x100 + d[off + 2] as int
  }

  /** The big-endian 3-byte encoding of a 24-bit value (the inverse of `ExtractUnsigned24`). */
  function Encode24(v: int): (d: seq<Byte>)
    requires 0 <= v < 0x100_0000
    ensures |d| == 3
  {
    [v / 0x1_0000, (v / 0x100) % 0x100, v % 0x100]
  }

  /** Extraction undoes encoding. */
  lemma ExtractEncode24(v: int)
    requires 0 <= v < 0x100_0000
    ensures ExtractUnsigned24(Encode24(v), 0) == v
  {
    var d := Encode24(v);
    assert v == (v / 0x1_0000) * 0x1_0000 + ((v / 0x100) % 0x100) * 0x100 + v % 0x100 by {
      assert v == (v / 0x100) * 0x100 + v % 0x100;
      assert v / 0x100 == (v / 0x1_0000) * 0x100 + (v / 0x100) % 0x100;
    }
  }

  /** Encoding undoes extraction: the three bytes are determined by the value. */
  lemma EncodeExtract24(d: seq<Byte>, off: nat)
    requires off + 3 <= |d|
    ensures Encode24(ExtractUnsigned24(d, off)) == d[off..off + 3]
  {
    var v := ExtractUnsigned24(d, off);
    var a: int, b: int, c: int := d[off], d[off + 1], d[off + 2];
    assert v == (a * 0x100 + b) * 0x100 + c;
    assert v / 0x100 == a * 0x100 + b;
    assert v % 0x100 == c;
    assert (a * 0x100 + b) / 0x100 == a;
    assert (a * 0x100 + b) % 0x100 == b;
    assert v / 0x1_0000 == a;
  }
}
