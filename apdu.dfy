/**
 * Short command APDUs of ISO/IEC 7816-4 section 5.1 (CLA INS P1 P2 [Lc data] [Le])
 * and response APDUs. `ApduUtil.build` is not part of this model: `Build` is the
 * encoding that standard defines for the four short cases, and `Parse` reads one back.
 */
module Apdu {
  import opened Wrappers
  import opened Bytes

  /** The fields of a command. `data` absent means no Lc field; `le` absent means no Le field. */
  datatype CommandApdu = CommandApdu(
    cla: Byte, ins: Byte, p1: Byte, p2: Byte,
    data: Option<seq<Byte>>, le: Option<Byte>)

  /** A short Lc field carries 1 to 255 data bytes. */
  predicate WellFormed(a: CommandApdu) {
    a.data.Some? ==> 1 <= |a.data.value| <= 255
  }

  /** The command frame; case 1 (header), 2 (+Le), 3 (+Lc data) or 4 (+Lc data Le). */
  function Build(a: CommandApdu): (f: seq<Byte>)
    requires WellFormed(a)
    ensures |f| >= 4 && f[..4] == [a.cla, a.ins, a.p1, a.p2]
  {
    [a.cla, a.ins, a.p1, a.p2]
      + (match a.data case None => [] case Some(d) => [|d|] + d)
      + (match a.le case None => [] case Some(le) => [le])
  }

  /** Reads a short command frame back into its fields; None when the length fits no case. */
  function Parse(f: seq<Byte>): (r: Option<CommandApdu>)
    ensures r.Some? ==> WellFormed(r.value)
  {
    if |f| < 4 then None
    else if |f| == 4 then Some(CommandApdu(f[0], f[1], f[2], f[3], None, None))
    else if |f| == 5 then Some(CommandApdu(f[0], f[1], f[2], f[3], None, Some(f[4])))
    else if f[4] == 0 then None
    else if |f| == 5 + f[4] as int then Some(CommandApdu(f[0], f[1], f[2], f[3], Some(f[5..]), None))
    else if |f| == 6 + f[4] as int then Some(CommandApdu(f[0], f[1], f[2], f[3], Some(f[5..|f| - 1]), Some(f[|f| - 1])))
    else None
  }

  /** Every well-formed command survives encoding and decoding. */
  lemma ParseBuild(a: CommandApdu)
    requires WellFormed(a)
    ensures Parse(Build(a)) == Some(a)
  {
    var f := Build(a);
    match a.data
    case None =>
    case Some(d) =>
      assert f[4] == |d|;
      match a.le
      case None => assert f[5..] == d;
      case Some(le) => assert f[5..|f| - 1] == d;
  }

  /** Every frame that decodes is the encoding of what it decodes to. */
  lemma BuildParse(f: seq<Byte>)
    requires Parse(f).Some?
    ensures Build(Parse(f).value) == f
  {
  }

  /** A response APDU: the data field and the two status bytes SW1 SW2 as one 16-bit word. */
  datatype ResponseApdu = ResponseApdu(dataOut: seq<Byte>, statusWord: int)
}
