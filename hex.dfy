/**
 * Hexadecimal text to bytes and back, the conversion the identity decoder
 * applies to the captured historical-bytes group.
 */
module Hex {
  import opened Bytes

  predicate IsHexDigit(c: char) {
    ('0' <= c <= '9') || ('A' <= c <= 'F') || ('a' <= c <= 'f')
  }

  /** Value of one hex digit, either case; any other character is read as 0. */
  function NibbleValue(c: char): (v: nat)
    ensures v < 16
    ensures IsHexDigit(c) || v == 0
  {
    if '0' <= c <= '9' then c as int - '0' as int
    else if 'A' <= c <= 'F' then c as int - 'A' as int + 10
    else if 'a' <= c <= 'f' then c as int - 'a' as int + 10
    else 0
  }

  /** The upper-case digit for a nibble. */
  function HexDigit(v: nat): (c: char)
    requires v < 16
    ensures IsHexDigit(c) && NibbleValue(c) == v
  {
    if v < 10 then ('0' as int + v) as char else ('A' as int + v - 10) as char
  }

  /** `HexUtil.toByteArray`: each pair of digits, high nibble first, becomes one byte. */
  function ToByteArray(hex: string): (r: seq<Byte>)
    requires |hex| % 2 == 0
    ensures |r| == |hex| / 2
    ensures forall i :: 0 <= i < |r| ==> r[i] == NibbleValue(hex[2 * i]) * 16 + NibbleValue(hex[2 * i + 1])
  {
    if hex == [] then []
    else [NibbleValue(hex[0]) * 16 + NibbleValue(hex[1])] + ToByteArray(hex[2..])
  }

  /** Upper-case hexadecimal text of a byte sequence. */
  function ToHex(b: seq<Byte>): (s: string)
    ensures |s| == 2 * |b|
    ensures forall i :: 0 <= i < |s| ==> IsHexDigit(s[i])
    ensures forall i :: 0 <= i < |b| ==> NibbleValue(s[2 * i]) == b[i] / 16 && NibbleValue(s[2 * i + 1]) == b[i] % 16
  {
    if b == [] then []
    else [HexDigit(b[0] / 16), HexDigit(b[0] % 16)] + ToHex(b[1..])
  }

  /** Decoding the hex text of a byte sequence gives the bytes back. */
  lemma {:induction false} ToByteArrayToHex(b: seq<Byte>)
    ensures ToByteArray(ToHex(b)) == b
  {
    if b != [] {
      var h := ToHex(b);
      assert h[2..] == ToHex(b[1..]);
      ToByteArrayToHex(b[1..]);
      assert b[0] == (b[0] / 16) * 16 + b[0] % 16;
    }
  }
}
