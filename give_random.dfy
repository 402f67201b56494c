/** `CommandGiveRandom`: hands the SAM an 8-byte random value. */
module CommandGiveRandom {
  import opened Wrappers
  import opened Bytes
  import opened Apdu
  import opened Command
  import opened LegacySam

  /** Instruction byte of Give Random (its `CommandRef` entry is not part of this model). */
  const InsGiveRandom: Byte := 0x86

  /** A built command: the request frame and the expected response length (none). */
  datatype GiveRandom = GiveRandom(apduRequest: seq<Byte>, expectedResponseLength: nat)

  /** `STATUS_TABLE`: the base table plus "Incorrect Lc." for 0x6700. */
  function StatusTableOf(base: StatusTable): (t: StatusTable)
    ensures t.Keys == base.Keys + {0x6700}
    ensures t[0x6700] == StatusProperties("Incorrect Lc.", Some(IllegalParameter))
    ensures forall sw :: sw in base && sw != 0x6700 ==> t[sw] == base[sw]
  {
    Overlay(base, map[0x6700 := StatusProperties("Incorrect Lc.", Some(IllegalParameter))])
  }

  /**
   * The constructor: a random that is absent or not 8 bytes long raises
   * IllegalArgumentException and no frame exists; otherwise the frame is a
   * case-3 command with the SAM's class byte, P1 = P2 = 0, the 8 bytes as data
   * and no Le, and no response data is expected.
   */
  function NewGiveRandom(sam: LegacySamAdapter, random: Option<seq<Byte>>): (r: Result<GiveRandom, Failure>)
    requires sam.Decoded()
    ensures r.Failure? <==> random.None? || |random.value| != 8
    ensures r.Failure? ==> r.error == IllegalArgument("Random value should be an 8 bytes long")
    ensures r.Success? ==>
      && r.value.expectedResponseLength == 0
      && Parse(r.value.apduRequest) == Some(CommandApdu(sam.ClassByte(), InsGiveRandom, 0x00, 0x00, random, None))
      && |r.value.apduRequest| == 13
  {
    var cla := sam.ClassByte();
    if random.None? || |random.value| != 8 then
      Failure(IllegalArgument("Random value should be an 8 bytes long"))
    else
      var frame := CommandApdu(cla, InsGiveRandom, 0x00, 0x00, random, None);
      ParseBuild(frame);
      Success(GiveRandom(Build(frame), 0))
  }

  /** On success the frame carries the random verbatim after the header and Lc = 8. */
  lemma FrameCarriesRandom(sam: LegacySamAdapter, random: seq<Byte>)
    requires sam.Decoded() && |random| == 8
    ensures var r := NewGiveRandom(sam, Some(random));
      r.Success? && r.value.apduRequest == [sam.ClassByte(), InsGiveRandom, 0x00, 0x00, 8] + random
  {
    var r := NewGiveRandom(sam, Some(random));
    BuildParse(r.value.apduRequest);
  }
}
