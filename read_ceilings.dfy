/**
 * `CommandReadCeilings`: reads one event ceiling, or one record of nine
 * ceilings, and stores what the SAM returns in the SAM's ceiling map.
 */
module CommandReadCeilings {
  import opened Wrappers
  import opened Bytes
  import opened Apdu
  import opened Command
  import opened LegacySam

  /** Instruction byte of Read Ceilings (its `CommandRef` entry is not part of this model). */
  const InsReadCeilings: Byte := 0xBE
  /** Expected length of the response data. */
  const ReadCeilingsResponseLength: nat := 48

  datatype CeilingsOperationType = ReadSingleCeiling | ReadCeilingRecord

  /** A built command: its mode, the number of the first ceiling it returns, and its request frame. */
  datatype ReadCeilings = ReadCeilings(
    operationType: CeilingsOperationType,
    firstEventCeilingNumber: int32,
    apduRequest: seq<Byte>,
    expectedResponseLength: nat)

  /** The command's own status entries. */
  function OwnStatusTable(): StatusTable {
    map[
      0x6900 := StatusProperties("An event counter cannot be incremented.", Some(CounterOverflow)),
      0x6A00 := StatusProperties("Incorrect P1 or P2.", Some(IllegalParameter)),
      0x6200 := StatusProperties("Correct execution with warning: data not signed.", None)]
  }

  /** `STATUS_TABLE`: the base table overlaid with the command's own entries. */
  function StatusTableOf(base: StatusTable): (t: StatusTable)
    ensures t.Keys == base.Keys + {0x6900, 0x6A00, 0x6200}
    ensures t[0x6900] == StatusProperties("An event counter cannot be incremented.", Some(CounterOverflow))
    ensures t[0x6A00] == StatusProperties("Incorrect P1 or P2.", Some(IllegalParameter))
    ensures t[0x6200] == StatusProperties("Correct execution with warning: data not signed.", None)
    ensures forall sw :: sw in base && sw !in {0x6900, 0x6A00, 0x6200} ==> t[sw] == base[sw]
  {
    Overlay(base, OwnStatusTable())
  }

  /** P1 and P2 of the request. */
  function P1(operationType: CeilingsOperationType, target: int32): Byte {
    if operationType == ReadSingleCeiling then LowByte(target) else 0x00
  }

  function P2(operationType: CeilingsOperationType, target: int32): Byte {
    if operationType == ReadSingleCeiling then 0xB8 else LowByte(0xB0 + target)
  }

  /** The first ceiling number of the answer: the target itself, or the first of the record. */
  function FirstEventCeilingNumber(operationType: CeilingsOperationType, target: int32): int32 {
    if operationType == ReadSingleCeiling then target else Wrap32(Wrap32(target - 1) * 9)
  }

  /**
   * The constructor: `target` is a ceiling number in single mode and a record
   * number in record mode. The frame is a case-2 command with the SAM's class
   * byte, no data and Le = 0.
   */
  function NewReadCeilings(sam: LegacySamAdapter, operationType: CeilingsOperationType, target: int32): (c: ReadCeilings)
    requires sam.Decoded()
    ensures c.operationType == operationType && c.expectedResponseLength == 48
    ensures Parse(c.apduRequest) == Some(CommandApdu(
      sam.ClassByte(), InsReadCeilings, P1(operationType, target), P2(operationType, target), None, Some(0x00)))
    ensures operationType == ReadSingleCeiling ==>
      c.firstEventCeilingNumber == target && P1(operationType, target) == LowByte(target) && P2(operationType, target) == 0xB8
    ensures operationType == ReadCeilingRecord ==>
      && (1 <= target <= 3 ==> c.firstEventCeilingNumber == (target - 1) * 9)
      && P1(operationType, target) == 0x00 && P2(operationType, target) == LowByte(0xB0 + target)
  {
    var frame := CommandApdu(sam.ClassByte(), InsReadCeilings, P1(operationType, target), P2(operationType, target), None, Some(0x00));
    ParseBuild(frame);
    ReadCeilings(operationType, FirstEventCeilingNumber(operationType, target), Build(frame), ReadCeilingsResponseLength)
  }

  /** The puts of the first `n` ceilings of a record: ceiling i comes from the three bytes at 8 + 3i. */
  function RecordPuts(first: int32, dataOut: seq<Byte>, n: nat): (p: seq<Put>)
    requires n <= 9 && (n == 0 || 8 + 3 * n <= |dataOut|)
    ensures |p| == n
    ensures forall i :: 0 <= i < n ==>
      p[i] == Put(Wrap32(first + i), ExtractUnsigned24(dataOut, 8 + 3 * i))
  {
    if n == 0 then []
    else RecordPuts(first, dataOut, n - 1) + [Put(Wrap32(first + n - 1), ExtractUnsigned24(dataOut, 8 + 3 * (n - 1)))]
  }

  /** How many complete 3-byte ceiling fields a record answer of this length holds. */
  function RecordFieldCount(length: nat): (n: nat)
    ensures n <= 9 && (n == 0 || 8 + 3 * n <= length)
    ensures n < 9 ==> length < 8 + 3 * (n + 1)
  {
    if length < 11 then 0 else if length >= 35 then 9 else (length - 8) / 3
  }

  /** The field count of a length that holds i fields and not i + 1. */
  lemma FieldCountAt(length: nat, i: nat)
    requires i < 9 && (i == 0 || 8 + 3 * i <= length) && length < 11 + 3 * i
    ensures RecordFieldCount(length) == i
  {
  }

  /** Whether the response data is long enough for everything the parser reads. */
  predicate LongEnough(operationType: CeilingsOperationType, dataOut: seq<Byte>) {
    if operationType == ReadSingleCeiling then |dataOut| >= 12 else |dataOut| >= 35
  }

  /** The ceiling puts the parser performs once the status check has passed. */
  function CeilingPuts(cmd: ReadCeilings, dataOut: seq<Byte>): seq<Put> {
    if cmd.operationType == ReadSingleCeiling then
      if |dataOut| >= 12 then [Put(SignExtend(dataOut[8]), ExtractUnsigned24(dataOut, 9))] else []
    else RecordPuts(cmd.firstEventCeilingNumber, dataOut, RecordFieldCount(|dataOut|))
  }

  /**
   * `parseApduResponse`: the status check runs first and, when it raises,
   * nothing is written. Then single mode puts one ceiling (number from the
   * signed byte at 8, value from bytes 9..11) and record mode puts nine
   * (number first + i, value from bytes 8 + 3i..). Data too short for a read
   * raises after the puts already done. The counter map is never touched.
   */
  method ParseApduResponse(cmd: ReadCeilings, sam: LegacySamAdapter, base: StatusTable, response: ResponseApdu)
    returns (r: Outcome<Failure>)
    requires sam.Valid()
    modifies sam`eventCeilings, sam`ceilingPuts
    ensures sam.Valid()
    ensures var status := CheckStatus(StatusTableOf(base), response.statusWord);
      if status.Fail? then
        r == status && sam.eventCeilings == old(sam.eventCeilings) && sam.ceilingPuts == old(sam.ceilingPuts)
      else
        && r == (if LongEnough(cmd.operationType, response.dataOut) then Pass else Fail(IndexOutOfBounds))
        && sam.ceilingPuts == old(sam.ceilingPuts) + CeilingPuts(cmd, response.dataOut)
        && sam.eventCeilings == Apply(old(sam.eventCeilings), CeilingPuts(cmd, response.dataOut))
  {
    var status := CheckStatus(StatusTableOf(base), response.statusWord);
    if status.Fail? {
      return status;
    }
    var dataOut := response.dataOut;
    if cmd.operationType == ReadSingleCeiling {
      if |dataOut| < 12 {
        return Fail(IndexOutOfBounds);
      }
      sam.PutEventCeiling(SignExtend(dataOut[8]), ExtractUnsigned24(dataOut, 9));
      return Pass;
    }
    r := PutRecordCeilings(sam, cmd.firstEventCeilingNumber, dataOut);
  }

  /** The record-mode loop: nine puts, stopping with an error at the first field the data does not hold. */
  method PutRecordCeilings(sam: LegacySamAdapter, first: int32, dataOut: seq<Byte>) returns (r: Outcome<Failure>)
    requires sam.Valid()
    modifies sam`eventCeilings, sam`ceilingPuts
    ensures sam.Valid()
    ensures r == (if |dataOut| >= 35 then Pass else Fail(IndexOutOfBounds))
    ensures sam.ceilingPuts == old(sam.ceilingPuts) + RecordPuts(first, dataOut, RecordFieldCount(|dataOut|))
    ensures sam.eventCeilings == Apply(old(sam.eventCeilings), RecordPuts(first, dataOut, RecordFieldCount(|dataOut|)))
  {
    var i := 0;
    while i < 9
      invariant 0 <= i <= 9 && (i == 0 || 8 + 3 * i <= |dataOut|)
      invariant sam.Valid()
      invariant sam.ceilingPuts == old(sam.ceilingPuts) + RecordPuts(first, dataOut, i)
      invariant sam.eventCeilings == Apply(old(sam.eventCeilings), RecordPuts(first, dataOut, i))
    {
      var offset := 8 + 3 * i;
      if offset + 3 > |dataOut| {
        FieldCountAt(|dataOut|, i);
        return Fail(IndexOutOfBounds);
      }
      sam.PutEventCeiling(Wrap32(first + i), ExtractUnsigned24(dataOut, offset));
      assert RecordPuts(first, dataOut, i + 1)[..i] == RecordPuts(first, dataOut, i);
      i := i + 1;
    }
    assert RecordFieldCount(|dataOut|) == 9;
    return Pass;
  }

  /** The command's own codes decide the check whatever the base table holds; the warning code passes. */
  lemma OwnStatusCodes(base: StatusTable)
    ensures CheckStatus(StatusTableOf(base), 0x6900) == Fail(CommandError(CounterOverflow, "An event counter cannot be incremented.", 0x6900))
    ensures CheckStatus(StatusTableOf(base), 0x6A00) == Fail(CommandError(IllegalParameter, "Incorrect P1 or P2.", 0x6A00))
    ensures CheckStatus(StatusTableOf(base), 0x6200) == Pass
  {
  }

  /** Single mode stores exactly one ceiling: a number in [-128, 128) and a 24-bit unsigned value. */
  lemma SingleModeWritesOne(cmd: ReadCeilings, m: map<int32, int32>, dataOut: seq<Byte>)
    requires cmd.operationType == ReadSingleCeiling && |dataOut| >= 12
    ensures var key := SignExtend(dataOut[8]);
      && -0x80 <= key < 0x80
      && Apply(m, CeilingPuts(cmd, dataOut)) == m[key := ExtractUnsigned24(dataOut, 9)]
      && 0 <= ExtractUnsigned24(dataOut, 9) < 0x100_0000
  {
    var puts := CeilingPuts(cmd, dataOut);
    assert puts[..0] == [];
  }

  /** The ceiling numbers lo, lo + 1, ..., lo + count - 1. */
  function CeilingRange(lo: int32, count: nat): (r: set<int32>)
    requires lo + count <= Int32Max + 1
    ensures forall k: int32 :: k in r <==> lo <= k < lo + count
    decreases count
  {
    if count == 0 then {} else CeilingRange(lo, count - 1) + {(lo + count - 1) as int32}
  }

  /** Without wrap-around, the first n puts of a record build the map first + i := field i. */
  lemma {:induction false} RecordPutsMap(first: int32, dataOut: seq<Byte>, n: nat)
    requires n <= 9 && (n == 0 || 8 + 3 * n <= |dataOut|) && first + n <= Int32Max + 1
    ensures forall k: int32 :: k in Apply(map[], RecordPuts(first, dataOut, n)) <==> first <= k < first + n
    ensures forall k: int32 :: first <= k < first + n ==>
      Apply(map[], RecordPuts(first, dataOut, n))[k] == ExtractUnsigned24(dataOut, 8 + 3 * (k - first))
  {
    if n > 0 {
      var puts, prev := RecordPuts(first, dataOut, n), RecordPuts(first, dataOut, n - 1);
      assert puts[..n - 1] == prev;
      RecordPutsMap(first, dataOut, n - 1);
      var key: int32 := first + n - 1;
      assert puts[n - 1] == Put(key, ExtractUnsigned24(dataOut, 8 + 3 * (n - 1)));
      assert Apply(map[], puts) == Apply(map[], prev)[key := ExtractUnsigned24(dataOut, 8 + 3 * (n - 1))];
    }
  }

  /**
   * Record mode with a long enough answer stores nine ceilings, numbered
   * first..first + 8, the one numbered first + i from the bytes at 8 + 3i and
   * below 2^24; every other ceiling keeps its value.
   */
  lemma RecordModeWritesNine(cmd: ReadCeilings, m: map<int32, int32>, dataOut: seq<Byte>)
    requires cmd.operationType == ReadCeilingRecord && |dataOut| >= 35
    requires cmd.firstEventCeilingNumber <= Int32Max - 8
    ensures var m' := Apply(m, CeilingPuts(cmd, dataOut));
      var first := cmd.firstEventCeilingNumber;
      && m'.Keys == m.Keys + CeilingRange(first, 9)
      && (forall k :: k in CeilingRange(first, 9) ==>
            m'[k] == ExtractUnsigned24(dataOut, 8 + 3 * (k - first)) < 0x100_0000)
      && (forall k :: k in m && k !in CeilingRange(first, 9) ==> m'[k] == m[k])
  {
    var puts := CeilingPuts(cmd, dataOut);
    ApplyOver(m, puts);
    RecordPutsMap(cmd.firstEventCeilingNumber, dataOut, 9);
  }

  /** The ceiling numbers that record `target` covers. */
  function RecordRange(target: int32): (r: set<int32>)
    requires 1 <= target <= 3
    ensures FirstEventCeilingNumber(ReadCeilingRecord, target) == (target - 1) * 9
    ensures r == CeilingRange(FirstEventCeilingNumber(ReadCeilingRecord, target), 9)
    ensures forall k: int32 :: k in r <==> (target - 1) * 9 <= k < target * 9
  {
    CeilingRange(FirstEventCeilingNumber(ReadCeilingRecord, target), 9)
  }

  /** Records 1, 2 and 3 together cover exactly the single-ceiling range 0..26. */
  lemma RecordsCoverCeilings()
    ensures forall k: int32 :: 0 <= k <= 26 <==> k in RecordRange(1) + RecordRange(2) + RecordRange(3)
  {
    var r1, r2, r3 := RecordRange(1), RecordRange(2), RecordRange(3);
    forall k: int32 ensures 0 <= k <= 26 <==> k in r1 + r2 + r3 {
      assert k in r1 <==> 0 <= k < 9;
      assert k in r2 <==> 9 <= k < 18;
      assert k in r3 <==> 18 <= k < 27;
    }
  }

  /** No two records cover the same ceiling number. */
  lemma RecordsDisjoint()
    ensures RecordRange(1) !! RecordRange(2) && RecordRange(1) !! RecordRange(3) && RecordRange(2) !! RecordRange(3)
  {
    var r1, r2, r3 := RecordRange(1), RecordRange(2), RecordRange(3);
    forall k: int32 | k in r1 ensures k !in r2 && k !in r3 {
      assert 0 <= k < 9;
    }
    forall k: int32 | k in r2 ensures k !in r3 {
      assert 9 <= k < 18;
    }
  }
}
