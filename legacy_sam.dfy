/**
 * The legacy SAM: an identity decoded once from the power-on data (the ATR),
 * the capability constants derived from it, and the event-counter and
 * event-ceiling maps that command responses update.
 */
module LegacySam {
  import opened Wrappers
  import opened Bytes
  import Hex
  import AtrPattern
  import opened Command

  datatype ProductType = SamC1 | HsmC1 | SamS1Dx | SamS1E1 | Unknown

  /** The product type selected by the application subtype (and, for 0xC1, the software issuer). */
  function ProductTypeFor(applicationSubType: Byte, softwareIssuer: Byte): (t: ProductType)
    ensures t == HsmC1 <==> applicationSubType == 0xC1 && softwareIssuer == 0x08
    ensures t == SamC1 <==> applicationSubType == 0xC1 && softwareIssuer != 0x08
    ensures t == SamS1Dx <==> applicationSubType == 0xD0 || applicationSubType == 0xD1 || applicationSubType == 0xD2
    ensures t == SamS1E1 <==> applicationSubType == 0xE1
    ensures t == Unknown <==> applicationSubType !in {0xC1, 0xD0, 0xD1, 0xD2, 0xE1}
  {
    match applicationSubType
    case 0xC1 => if softwareIssuer == 0x08 then HsmC1 else SamC1
    case 0xD0 => SamS1Dx
    case 0xD1 => SamS1Dx
    case 0xD2 => SamS1Dx
    case 0xE1 => SamS1E1
    case _ => Unknown
  }

  /** The class byte: 0x94 for the S1Dx family, 0x80 for every other type. */
  function ClassByteFor(t: ProductType): (cla: Byte)
    ensures cla == 0x94 <==> t == SamS1Dx
    ensures cla == 0x80 <==> t != SamS1Dx
  {
    if t == SamS1Dx then 0x94 else 0x80
  }

  /** `getMaxDigestDataLength`: the digest limit of the product type, 0 meaning unsupported. */
  function MaxDigestDataLength(t: ProductType): (n: nat)
    ensures n == 255 <==> t == SamC1 || t == HsmC1
    ensures n == 70 <==> t == SamS1Dx
    ensures n == 240 <==> t == SamS1E1
    ensures n == 0 <==> t == Unknown
  {
    match t
    case SamC1 => 255
    case HsmC1 => 255
    case SamS1Dx => 70
    case SamS1E1 => 240
    case Unknown => 0
  }

  /** The immutable part of the SAM, fixed by the constructor. */
  datatype Identity = Identity(
    powerOnData: string,
    productType: ProductType,
    serialNumber: seq<Byte>,
    platform: Byte,
    applicationType: Byte,
    applicationSubType: Byte,
    softwareIssuer: Byte,
    softwareVersion: Byte,
    softwareRevision: Byte,
    classByte: Byte)

  /** The identity of a SAM whose power-on data does not have the expected layout. */
  function DegradedIdentity(atr: string): Identity {
    Identity(atr, Unknown, [0, 0, 0, 0], 0, 0, 0, 0, 0, 0, 0x80)
  }

  /**
   * Decoding of a present power-on string. The second group of the first
   * pattern match is read as ten bytes: platform, application type, subtype,
   * software issuer, version, revision, then the four serial-number bytes.
   */
  function DecodePowerOnData(atr: string): (id: Identity)
    ensures id.powerOnData == atr && |id.serialNumber| == 4
    ensures id.classByte == 0x94 <==> id.productType == SamS1Dx
    ensures id.classByte == 0x94 || id.classByte == 0x80
    ensures AtrPattern.Find(atr).None? ==> id == DegradedIdentity(atr)
    ensures AtrPattern.Find(atr).Some? ==>
      var g := AtrPattern.Find(atr).value.GroupStart();
      g + 20 <= |atr| &&
      var b := Hex.ToByteArray(atr[g..g + 20]);
      && id.platform == b[0] && id.applicationType == b[1] && id.applicationSubType == b[2]
      && id.softwareIssuer == b[3] && id.softwareVersion == b[4] && id.softwareRevision == b[5]
      && id.serialNumber == b[6..10]
      && id.productType == ProductTypeFor(b[2], b[3])
  {
    match AtrPattern.Find(atr)
    case None => DegradedIdentity(atr)
    case Some(m) =>
      var g := m.GroupStart();
      var b := Hex.ToByteArray(atr[g..g + 20]);
      var t := ProductTypeFor(b[2], b[3]);
      Identity(atr, t, b[6..10], b[0], b[1], b[2], b[3], b[4], b[5], ClassByteFor(t))
  }

  /** A power-on string built from a header of `gap` characters and ten identity bytes. */
  function WellFormedAtr(header: string, b: seq<Byte>): string
    requires |b| == 10
  {
    "3B" + header + "805A" + Hex.ToHex(b) + "829000"
  }

  /**
   * Encoding ten identity bytes into the expected layout and decoding the
   * result gives the same bytes back, whichever header alternative is used.
   */
  lemma {:induction false} DecodeWellFormed(header: string, b: seq<Byte>)
    requires |b| == 10
    requires |header| == 6 || |header| == 10
    requires forall i :: 0 <= i < |header| ==> AtrPattern.IsDot(header[i])
    ensures var id := DecodePowerOnData(WellFormedAtr(header, b));
      && id.platform == b[0] && id.applicationType == b[1] && id.applicationSubType == b[2]
      && id.softwareIssuer == b[3] && id.softwareVersion == b[4] && id.softwareRevision == b[5]
      && id.serialNumber == b[6..10]
      && id.productType == ProductTypeFor(b[2], b[3])
  {
    var s := WellFormedAtr(header, b);
    var hex := Hex.ToHex(b);
    var gap := |header|;
    assert |hex| == 20;
    assert s == "3B" + header + "805A" + hex + "829000";
    assert s[..2] == "3B";
    assert s[2..2 + gap] == header;
    assert s[2 + gap..6 + gap] == "805A";
    assert s[6 + gap..26 + gap] == hex;
    assert s[26 + gap..32 + gap] == "829000";
    forall i | 6 + gap <= i < 26 + gap ensures AtrPattern.IsDot(s[i]) {
      assert s[i] == hex[i - 6 - gap];
    }
    forall i | 2 <= i < 2 + gap ensures AtrPattern.IsDot(s[i]) {
      assert s[i] == header[i - 2];
    }
    assert AtrPattern.MatchesWith(s, 0, gap);
    if gap == 10 {
      assert s[36] == '8';
      assert s[32..38][4] == s[36];
      assert !AtrPattern.LiteralAt(s, 32, "829000");
      assert !AtrPattern.MatchesWith(s, 0, 6);
    }
    assert AtrPattern.MatchesAt(s, 0);
    var m := AtrPattern.Find(s);
    assert m.Some? && m.value.start == 0;
    assert m.value.gap == gap;
    Hex.ToByteArrayToHex(b);
  }

  /** With no match the derived constants are the defaults: class byte 0x80, no digest support. */
  lemma DegradedConstants(atr: string)
    requires AtrPattern.Find(atr).None?
    ensures DecodePowerOnData(atr).productType == Unknown
    ensures DecodePowerOnData(atr).classByte == 0x80
    ensures MaxDigestDataLength(DecodePowerOnData(atr).productType) == 0
  {
  }

  /** One `put` on a map: key and new value. */
  datatype Put = Put(key: int32, value: int32)

  /** The map obtained from `m` by performing the puts in order (replace on write). */
  function Apply(m: map<int32, int32>, puts: seq<Put>): map<int32, int32>
    decreases |puts|
  {
    if puts == [] then m
    else
      var last := puts[|puts| - 1];
      Apply(m, puts[..|puts| - 1])[last.key := last.value]
  }

  /** The value of the last put on `key`, if any. */
  function LastPut(puts: seq<Put>, key: int32): (r: Option<int32>)
    decreases |puts|
  {
    if puts == [] then None
    else if puts[|puts| - 1].key == key then Some(puts[|puts| - 1].value)
    else LastPut(puts[..|puts| - 1], key)
  }

  /** `Map.get`: the value at `key`, or absent. */
  function Lookup(m: map<int32, int32>, key: int32): Option<int32> {
    if key in m then Some(m[key]) else None
  }

  /** After a sequence of puts, a key holds its last put value, or what it held before if it was never put. */
  lemma {:induction false} ApplyLookup(m: map<int32, int32>, puts: seq<Put>, key: int32)
    ensures Lookup(Apply(m, puts), key) == if LastPut(puts, key).Some? then LastPut(puts, key) else Lookup(m, key)
    decreases |puts|
  {
    if puts != [] {
      ApplyLookup(m, puts[..|puts| - 1], key);
    }
  }

  /** Performing puts on a map is overlaying the map built by the same puts from empty. */
  lemma {:induction false} ApplyOver(m: map<int32, int32>, puts: seq<Put>)
    ensures Apply(m, puts) == m + Apply(map[], puts)
    decreases |puts|
  {
    if puts != [] {
      ApplyOver(m, puts[..|puts| - 1]);
    }
  }

  /** `LastPut` finds a put on the key exactly when there is one, and the one it finds has no later put on that key. */
  lemma {:induction false} LastPutIsLast(puts: seq<Put>, key: int32)
    ensures LastPut(puts, key).None? <==> forall i :: 0 <= i < |puts| ==> puts[i].key != key
    ensures LastPut(puts, key).Some? ==>
      exists i :: 0 <= i < |puts| && puts[i] == Put(key, LastPut(puts, key).value)
        && forall j :: i < j < |puts| ==> puts[j].key != key
    decreases |puts|
  {
    if puts != [] {
      var n := |puts| - 1;
      var prefix := puts[..n];
      LastPutIsLast(prefix, key);
      if puts[n].key != key {
        assert forall i :: 0 <= i < n ==> prefix[i] == puts[i];
        if LastPut(prefix, key).Some? {
          var i :| 0 <= i < n && prefix[i] == Put(key, LastPut(prefix, key).value)
            && forall j :: i < j < n ==> prefix[j].key != key;
          assert puts[i] == Put(key, LastPut(puts, key).value);
        }
      }
    }
  }

  /**
   * `LegacySamAdapter`: the identity plus the two `TreeMap`s of event counters
   * and event ceilings. The ghost histories record every put; `Valid` ties each
   * map to its history.
   */
  class LegacySamAdapter {
    const identity: Identity
    var eventCounters: map<int32, int32>
    var eventCeilings: map<int32, int32>
    ghost var counterPuts: seq<Put>
    ghost var ceilingPuts: seq<Put>

    /** Each map holds what its history of puts builds from empty. */
    ghost predicate Valid()
      reads this
    {
      eventCounters == Apply(map[], counterPuts) && eventCeilings == Apply(map[], ceilingPuts)
    }

    /** The identity is the decoding of the SAM's own power-on data. */
    ghost predicate Decoded() {
      identity == DecodePowerOnData(identity.powerOnData)
    }

    /** The identity is decoded from a present power-on string; both maps start empty. */
    constructor (powerOnData: string)
      ensures Valid() && Decoded() && identity == DecodePowerOnData(powerOnData)
      ensures eventCounters == map[] && eventCeilings == map[]
      ensures counterPuts == [] && ceilingPuts == []
    {
      identity := DecodePowerOnData(powerOnData);
      eventCounters, eventCeilings := map[], map[];
      counterPuts, ceilingPuts := [], [];
    }

    /** `putEventCounter`: adds or replaces one counter; nothing else changes. */
    method PutEventCounter(eventCounterNumber: int32, eventCounterValue: int32)
      requires Valid()
      modifies this`eventCounters, this`counterPuts
      ensures Valid()
      ensures eventCounters == old(eventCounters)[eventCounterNumber := eventCounterValue]
      ensures counterPuts == old(counterPuts) + [Put(eventCounterNumber, eventCounterValue)]
    {
      eventCounters := eventCounters[eventCounterNumber := eventCounterValue];
      counterPuts := counterPuts + [Put(eventCounterNumber, eventCounterValue)];
      assert counterPuts[..|counterPuts| - 1] == old(counterPuts);
    }

    /** `putEventCeiling`: adds or replaces one ceiling; nothing else changes. */
    method PutEventCeiling(eventCeilingNumber: int32, eventCeilingValue: int32)
      requires Valid()
      modifies this`eventCeilings, this`ceilingPuts
      ensures Valid()
      ensures eventCeilings == old(eventCeilings)[eventCeilingNumber := eventCeilingValue]
      ensures ceilingPuts == old(ceilingPuts) + [Put(eventCeilingNumber, eventCeilingValue)]
    {
      eventCeilings := eventCeilings[eventCeilingNumber := eventCeilingValue];
      ceilingPuts := ceilingPuts + [Put(eventCeilingNumber, eventCeilingValue)];
      assert ceilingPuts[..|ceilingPuts| - 1] == old(ceilingPuts);
    }

    /** `getEventCounter`: the value last put for that number, or absent if it was never put. */
    function GetEventCounter(eventCounterNumber: int32): (r: Option<int32>)
      reads this
      requires Valid()
      ensures r == LastPut(counterPuts, eventCounterNumber)
    {
      ApplyLookup(map[], counterPuts, eventCounterNumber);
      Lookup(eventCounters, eventCounterNumber)
    }

    /** `getEventCeiling`: the value last put for that number, or absent if it was never put. */
    function GetEventCeiling(eventCeilingNumber: int32): (r: Option<int32>)
      reads this
      requires Valid()
      ensures r == LastPut(ceilingPuts, eventCeilingNumber)
    {
      ApplyLookup(map[], ceilingPuts, eventCeilingNumber);
      Lookup(eventCeilings, eventCeilingNumber)
    }

    /** `getClassByte`. */
    function ClassByte(): (cla: Byte)
      requires Decoded()
      ensures cla == 0x94 <==> identity.productType == SamS1Dx
    {
      identity.classByte
    }
  }

  /**
   * The `LegacySamAdapter` constructor: absent power-on data raises
   * IllegalStateException; otherwise the identity is decoded and both maps are empty.
   */
  method NewLegacySamAdapter(powerOnData: Option<string>) returns (r: Result<LegacySamAdapter, Failure>)
    ensures powerOnData.None? ==> r == Failure(IllegalState("ATR should not be empty."))
    ensures powerOnData.Some? ==>
      && r.Success? && fresh(r.value) && r.value.Valid() && r.value.Decoded()
      && r.value.identity == DecodePowerOnData(powerOnData.value)
      && r.value.eventCounters == map[] && r.value.eventCeilings == map[]
      && r.value.counterPuts == [] && r.value.ceilingPuts == []
  {
    match powerOnData
    case None => r := Failure(IllegalState("ATR should not be empty."));
    case Some(atr) =>
      var sam := new LegacySamAdapter(atr);
      r := Success(sam);
  }
}
