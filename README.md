# Calypso legacy SAM library: a Dafny model of its byte-level bookkeeping

This project models the core of the Keyple library for Calypso legacy SAMs
(secure access modules):

- **Identity.** `LegacySamAdapter` decodes the SAM's identity from its power-on
  data (the ATR of ISO/IEC 7816-3, as hex text) and derives three values from
  it: the product type, the class byte and the maximum digest length.
- **Maps.** The adapter keeps two maps, event counters and event ceilings,
  which command responses update.
- **Commands.** `CommandReadCeilings` builds its request frame and writes the
  parsed ceilings into the SAM. `CommandGiveRandom` checks an 8-byte random
  and builds its frame. Each command has a status table: the shared base table
  overlaid with the command's own entries.
- **Factory.** `LSTransactionManagerFactoryAdapter` checks its two arguments,
  in order, then builds a free transaction manager.

Modules and files:

- `wrappers.dfy`, `Wrappers`: Option, Result and Outcome. They stand for Java's null and thrown exceptions.
- `bytes.dfy`, `Bytes`: octets and Java's 32-bit `int` (`int32`). Also the `(byte)` cast, sign extension, and the unsigned 24-bit big-endian read `ByteArrayUtil.extractInt(d, off, 3, false)`.
- `hex.dfy`, `Hex`: hex text to bytes (`HexUtil.toByteArray`) and back.
- `apdu.dfy`, `Apdu`: short command APDUs per ISO/IEC 7816-4 section 5.1 (cases 1 to 4), with an encoder and a decoder.
- `command.dfy`, `Command`: error kinds, exceptions, status tables, the overlay of a command's table on the base table, and the status check.
- `atr_pattern.dfy`, `AtrPattern`: the search for `3B(.{6}|.{10})805A(.{20})829000` as Java's `Matcher.find(0)` runs it.
- `legacy_sam.dfy`, `LegacySam`: the product type, class byte and digest tables; identity decoding; the history of map puts; and the class `LegacySamAdapter`.
- `read_ceilings.dfy`, `CommandReadCeilings`: the command and its response parser.
- `give_random.dfy`, `CommandGiveRandom`: the command.
- `factory.dfy`, `LSTransactionManagerFactoryAdapter`: `createFreeTransactionManager`.

Modelling choices:

- **Bytes.** A byte is an octet 0..255. Java's signed reading matters in one
  place: the ceiling number taken from `dataOut[8]`, which is sign-extended
  (`SignExtend`).
- **Java `int`.** Java `int` arithmetic in the source is reduced modulo 2^32
  (`Wrap32`): `(target - 1) * 9` and `first + i`.
- **Exceptions.** A thrown exception becomes a `Failure` value. A method that
  stops with an exception returns `Fail`; the state changes it made before the
  throw are kept.
- **Put history.** Each map has a ghost history of puts. `Valid()` says the map
  is what that history builds from empty. So a get is, by proof, the last value
  put for that key.
- **Base status check.** The shared base table of `Command` is a parameter. The
  status check is an exact lookup:
  - a listed code with no error kind passes (success or warning);
  - a listed code with an error kind raises that kind with the table's message;
  - a code not in the table raises the unknown-status error.
- **Negative ceiling numbers.** `CommandReadCeilings.java:57-58` documents the
  ceiling index as 0-26. The response parser, though, sign-extends `dataOut[8]`,
  so a byte of 0x80 or more gives a negative number. The model follows the code
  (`SingleModeWritesOne` states the range [-128, 128)).
- **Short response data.** The response parser may read past the end of
  `dataOut`. Java then throws an index-out-of-bounds exception; the model
  returns `Fail(IndexOutOfBounds)`. In record mode the ceilings already put
  stay written.

Assumptions about code outside this model:

- `CommandRef` is not part of this model. The instruction bytes are assumed to
  be 0xBE (Read Ceilings) and 0x86 (Give Random), the values of the Calypso
  legacy SAM command set.
- `ApduUtil.build` is not part of this model. `Apdu.Build` is the short-APDU
  encoding of ISO/IEC 7816-4.

## Model

| member | source | states |
|---|---|---|
| `Bytes.Wrap32` | src/main/java/org/eclipse/keyple/card/calypso/crypto/legacysam/CommandReadCeilings.java:76 | Java `int` arithmetic: the result is congruent to the exact value mod 2^32, and equal to it when it fits |
| `Bytes.LowByte` | src/main/java/org/eclipse/keyple/card/calypso/crypto/legacysam/CommandReadCeilings.java:73-78 | the `(byte)` cast keeps the low 8 bits: congruent mod 256, identity on 0..255 |
| `Bytes.SignExtend` | src/main/java/org/eclipse/keyple/card/calypso/crypto/legacysam/CommandReadCeilings.java:106 | widening a byte to int gives a value in [-128, 128) that is negative iff bit 7 is set, and whose low byte is the original byte |
| `Bytes.ExtractUnsigned24` | src/main/java/org/eclipse/keyple/card/calypso/crypto/legacysam/CommandReadCeilings.java:106 | the unsigned 3-byte big-endian value read at an offset is in [0, 2^24) |
| `Bytes.ExtractEncode24` | src/main/java/org/eclipse/keyple/card/calypso/crypto/legacysam/CommandReadCeilings.java:112 | reading back the 3-byte encoding of a 24-bit value returns the value |
| `Bytes.EncodeExtract24` | src/main/java/org/eclipse/keyple/card/calypso/crypto/legacysam/CommandReadCeilings.java:112 | re-encoding an extracted value gives back the three bytes it was read from |
| `Hex.NibbleValue` | src/main/java/org/eclipse/keyple/card/calypso/crypto/legacysam/LegacySamAdapter.java:73 | a digit's value is below 16, and 0 for a non-digit |
| `Hex.HexDigit` | src/main/java/org/eclipse/keyple/card/calypso/crypto/legacysam/LegacySamAdapter.java:73 | the upper-case digit of a nibble reads back as that nibble |
| `Hex.ToByteArray` | src/main/java/org/eclipse/keyple/card/calypso/crypto/legacysam/LegacySamAdapter.java:73 | hex text of length 2n gives n bytes; byte i is 16 × digit 2i + digit 2i+1 |
| `Hex.ToHex` | src/main/java/org/eclipse/keyple/card/calypso/crypto/legacysam/LegacySamAdapter.java:73 | inverse used to state the round trip of `HexUtil.toByteArray`: n bytes give 2n hex digits; each pair holds the byte's high and low nibble |
| `Hex.ToByteArrayToHex` | src/main/java/org/eclipse/keyple/card/calypso/crypto/legacysam/LegacySamAdapter.java:73 | decoding the hex text of any bytes gives the bytes back |
| `Apdu.Build` | src/main/java/org/eclipse/keyple/card/calypso/crypto/legacysam/CommandReadCeilings.java:81-83 | a command frame starts with CLA INS P1 P2 |
| `Apdu.Parse` | src/main/java/org/eclipse/keyple/card/calypso/crypto/legacysam/CommandGiveRandom.java:54-56 | decoder used to state the round trip of `ApduUtil.build`: a frame that decodes has a data field of 1 to 255 bytes, or none |
| `Apdu.ParseBuild` | src/main/java/org/eclipse/keyple/card/calypso/crypto/legacysam/CommandGiveRandom.java:54-56 | every well-formed command decodes back to its own fields after encoding |
| `Apdu.BuildParse` | src/main/java/org/eclipse/keyple/card/calypso/crypto/legacysam/CommandReadCeilings.java:81-83 | every frame that decodes is the encoding of its decoded fields |
| `Command.Overlay` | src/main/java/org/eclipse/keyple/card/calypso/crypto/legacysam/CommandReadCeilings.java:42-49 | the command's table has the union of the keys; the command's entries win; base entries remain elsewhere |
| `Command.CheckStatus` | src/main/java/org/eclipse/keyple/card/calypso/crypto/legacysam/CommandReadCeilings.java:103 | passes iff the code is listed with no error kind; a listed error code raises its kind, message and code; an unlisted code raises unknown status |
| `Command.OwnEntryDecides` | src/main/java/org/eclipse/keyple/card/calypso/crypto/legacysam/CommandReadCeilings.java:41-50 | a code in the command's own entries is checked as those entries say, whatever the base table holds |
| `Command.BaseEntryOtherwise` | src/main/java/org/eclipse/keyple/card/calypso/crypto/legacysam/CommandGiveRandom.java:29-33 | a code the command does not list is checked exactly as in the base table |
| `AtrPattern.MatchAt` | src/main/java/org/eclipse/keyple/card/calypso/crypto/legacysam/LegacySamAdapter.java:68 | at one start position: matches iff either alternative does; the 6-character alternative is taken whenever it matches |
| `AtrPattern.FindFrom` | src/main/java/org/eclipse/keyple/card/calypso/crypto/legacysam/LegacySamAdapter.java:68-72 | the result is a match at the least start position not before `from`; absent iff no position from there matches |
| `AtrPattern.Find` | src/main/java/org/eclipse/keyple/card/calypso/crypto/legacysam/LegacySamAdapter.java:71-72 | `find(0)`: the first match in the whole string with the alternative picked there; absent iff no position matches |
| `LegacySam.ProductTypeFor` | src/main/java/org/eclipse/keyple/card/calypso/crypto/legacysam/LegacySamAdapter.java:82-97 | one iff per product type: 0xC1 gives HSM_C1 iff the issuer is 0x08 and SAM_C1 otherwise; 0xD0/0xD1/0xD2 give S1DX; 0xE1 gives S1E1; any other subtype gives UNKNOWN |
| `LegacySam.ClassByteFor` | src/main/java/org/eclipse/keyple/card/calypso/crypto/legacysam/LegacySamAdapter.java:124 | 0x94 iff the type is SAM_S1DX, 0x80 iff it is not |
| `LegacySam.MaxDigestDataLength` | src/main/java/org/eclipse/keyple/card/calypso/crypto/legacysam/LegacySamAdapter.java:143-155 | 255 iff C1 or HSM_C1, 70 iff S1DX, 240 iff S1E1, 0 iff UNKNOWN |
| `LegacySam.DecodePowerOnData` | src/main/java/org/eclipse/keyple/card/calypso/crypto/legacysam/LegacySamAdapter.java:64-124 | with a first match, the six identity bytes come in order from the decoded 20-character group, the serial is bytes 6..9 and the type comes from the subtype and issuer; with none, all fields are zero, the serial is 4 zero bytes and the type is UNKNOWN; the class byte is 0x94 iff the type is S1DX |
| `LegacySam.DecodeWellFormed` | src/main/java/org/eclipse/keyple/card/calypso/crypto/legacysam/LegacySamAdapter.java:68-99 | ten bytes hex-encoded into the expected layout, with either header length, decode back to the same identity fields, serial and type |
| `LegacySam.DegradedConstants` | src/main/java/org/eclipse/keyple/card/calypso/crypto/legacysam/LegacySamAdapter.java:114-124 | without a match the type is UNKNOWN, the class byte is 0x80 and the digest limit is 0 |
| `LegacySam.ApplyLookup` | src/main/java/org/eclipse/keyple/card/calypso/crypto/legacysam/LegacySamAdapter.java:275-288 | replace-on-write: after a sequence of puts a key holds its last put value, or its old value if it was never put |
| `LegacySam.ApplyOver` | src/main/java/org/eclipse/keyple/card/calypso/crypto/legacysam/LegacySamAdapter.java:286-288 | puts on a map overlay the map those same puts build from empty |
| `LegacySam.LastPutIsLast` | src/main/java/org/eclipse/keyple/card/calypso/crypto/legacysam/LegacySamAdapter.java:296-298 | the value found is the value of a put on that key with no later put on it; nothing is found iff the key was never put |
| `LegacySam.LegacySamAdapter.constructor` | src/main/java/org/eclipse/keyple/card/calypso/crypto/legacysam/LegacySamAdapter.java:45-125 | the identity is the decoding of the power-on data, as the constructor body does it; both maps (the initialisers at lines 45-46) and histories start empty |
| `LegacySam.LegacySamAdapter.PutEventCounter` | src/main/java/org/eclipse/keyple/card/calypso/crypto/legacysam/LegacySamAdapter.java:275-277 | counters[n] := v and the put is recorded; only the counter map and its history may change |
| `LegacySam.LegacySamAdapter.PutEventCeiling` | src/main/java/org/eclipse/keyple/card/calypso/crypto/legacysam/LegacySamAdapter.java:286-288 | ceilings[n] := v and the put is recorded; only the ceiling map and its history may change |
| `LegacySam.LegacySamAdapter.GetEventCounter` | src/main/java/org/eclipse/keyple/card/calypso/crypto/legacysam/LegacySamAdapter.java:296-298 | the value last put for that counter number, or absent if none was put |
| `LegacySam.LegacySamAdapter.GetEventCeiling` | src/main/java/org/eclipse/keyple/card/calypso/crypto/legacysam/LegacySamAdapter.java:316-318 | the value last put for that ceiling number, or absent if none was put |
| `LegacySam.LegacySamAdapter.ClassByte` | src/main/java/org/eclipse/keyple/card/calypso/crypto/legacysam/LegacySamAdapter.java:133-135 | 0x94 iff the SAM's type is SAM_S1DX |
| `LegacySam.NewLegacySamAdapter` | src/main/java/org/eclipse/keyple/card/calypso/crypto/legacysam/LegacySamAdapter.java:56-62 | absent power-on data raises IllegalState "ATR should not be empty." and nothing is built; present data gives a fresh adapter with the decoded identity and empty maps |
| `CommandReadCeilings.StatusTableOf` | src/main/java/org/eclipse/keyple/card/calypso/crypto/legacysam/CommandReadCeilings.java:41-50 | the base table's keys plus 0x6900 (CounterOverflow), 0x6A00 (IllegalParameter) and 0x6200 (warning, no kind); those three win; every other base entry remains |
| `CommandReadCeilings.OwnStatusCodes` | src/main/java/org/eclipse/keyple/card/calypso/crypto/legacysam/CommandReadCeilings.java:43-48 | whatever the base table holds, 0x6900 raises CounterOverflow, 0x6A00 raises IllegalParameter, and 0x6200 passes |
| `CommandReadCeilings.NewReadCeilings` | src/main/java/org/eclipse/keyple/card/calypso/crypto/legacysam/CommandReadCeilings.java:61-84 | the frame decodes to the SAM's class byte, INS, P1, P2, no data and Le 0; expected length 48. Single mode: first = target, P1 = low byte of target, P2 = 0xB8. Record mode: P1 = 0, P2 = low byte of 0xB0 + target, and first = (target − 1) × 9 for targets 1..3 |
| `CommandReadCeilings.RecordPuts` | src/main/java/org/eclipse/keyple/card/calypso/crypto/legacysam/CommandReadCeilings.java:108-113 | n puts; put i has number first + i (int arithmetic) and the unsigned 24-bit value at offset 8 + 3i |
| `CommandReadCeilings.RecordFieldCount` | src/main/java/org/eclipse/keyple/card/calypso/crypto/legacysam/CommandReadCeilings.java:108-112 | how many complete 3-byte fields the loop reads from data of a given length before an index runs out (at most 9) |
| `CommandReadCeilings.ParseApduResponse` | src/main/java/org/eclipse/keyple/card/calypso/crypto/legacysam/CommandReadCeilings.java:102-115 | a failing status check raises before any write; otherwise the ceilings become the old ones with this mode's puts applied. Data too short raises after the writes already done. Counters are never touched |
| `CommandReadCeilings.PutRecordCeilings` | src/main/java/org/eclipse/keyple/card/calypso/crypto/legacysam/CommandReadCeilings.java:107-114 | the nine-iteration loop: putting the first RecordFieldCount fields is exactly what it does; it passes iff the data holds all nine |
| `CommandReadCeilings.SingleModeWritesOne` | src/main/java/org/eclipse/keyple/card/calypso/crypto/legacysam/CommandReadCeilings.java:106 | single mode writes exactly one ceiling: number = sign-extended `dataOut[8]` in [-128, 128), value = bytes 9..11, below 2^24 |
| `CommandReadCeilings.CeilingRange` | src/main/java/org/eclipse/keyple/card/calypso/crypto/legacysam/CommandReadCeilings.java:57-58 | range notation used by `RecordRange`, `RecordModeWritesNine` and `RecordsCoverCeilings` to state the documented ceiling and record ranges: exactly the numbers lo..lo + count − 1 |
| `CommandReadCeilings.RecordPutsMap` | src/main/java/org/eclipse/keyple/card/calypso/crypto/legacysam/CommandReadCeilings.java:108-113 | without wrap-around, the puts of a record build a map whose keys are first..first + n − 1, where key k holds the field at 8 + 3(k − first) |
| `CommandReadCeilings.RecordModeWritesNine` | src/main/java/org/eclipse/keyple/card/calypso/crypto/legacysam/CommandReadCeilings.java:107-113 | record mode with full data adds keys first..first + 8, each holding its 3-byte field (below 2^24), and keeps every other ceiling |
| `CommandReadCeilings.RecordRange` | src/main/java/org/eclipse/keyple/card/calypso/crypto/legacysam/CommandReadCeilings.java:76 | record r (1..3) starts at (r − 1) × 9 and covers exactly 9(r − 1)..9r − 1 |
| `CommandReadCeilings.RecordsCoverCeilings` | src/main/java/org/eclipse/keyple/card/calypso/crypto/legacysam/CommandReadCeilings.java:57-58 | records 1..3 together cover exactly ceiling numbers 0..26, the documented single-ceiling range |
| `CommandReadCeilings.RecordsDisjoint` | src/main/java/org/eclipse/keyple/card/calypso/crypto/legacysam/CommandReadCeilings.java:108-112 | no two records write the same ceiling number, so each of 0..26 is written by exactly one record |
| `CommandGiveRandom.StatusTableOf` | src/main/java/org/eclipse/keyple/card/calypso/crypto/legacysam/CommandGiveRandom.java:29-33 | the base table's keys plus 0x6700 (IllegalParameter, "Incorrect Lc."); every other base entry remains |
| `CommandGiveRandom.NewGiveRandom` | src/main/java/org/eclipse/keyple/card/calypso/crypto/legacysam/CommandGiveRandom.java:43-57 | fails iff the random is absent or not 8 bytes, then with IllegalArgument and no frame. On success the 13-byte frame decodes to the class byte, INS, P1 = P2 = 0, the random as data and no Le, and the expected length is 0 |
| `CommandGiveRandom.FrameCarriesRandom` | src/main/java/org/eclipse/keyple/card/calypso/crypto/legacysam/CommandGiveRandom.java:54-56 | the frame is CLA INS 00 00 08 followed by the 8 random bytes |
| `LSTransactionManagerFactoryAdapter.CreateFreeTransactionManager` | src/main/java/org/eclipse/keyple/card/calypso/crypto/legacysam/LSTransactionManagerFactoryAdapter.java:35-43 | a non-proxy reader raises the 'samReader' error; otherwise a sam that is not the adapter raises the 'sam' error. Success iff both checks pass, with a manager bound to the same reader and the same adapter object |
| `LSTransactionManagerFactoryAdapter.ReaderCheckedFirst` | src/main/java/org/eclipse/keyple/card/calypso/crypto/legacysam/LSTransactionManagerFactoryAdapter.java:35-42 | when both arguments are wrong, the error names 'samReader' |

## Left out

- Trace logging in the constructor, and the JSON `toString`. They are observability only.
- `getProductInfo`. Its text depends on the format of `HexUtil.toHex`, which is not part of this model.
- The plain field getters (`getPowerOnData`, `getSerialNumber`, `getPlatform`, ...) and `getSelectApplicationResponse`. They are read directly as the fields of `Identity`.
- `getEventCounters` and `getEventCeilings`. They return the live maps; aliasing of Java references is not modelled, and the maps are the class's fields.
- The three provider classes. Each is one `new` of a class that is not part of this model.
- `DataAccessException` and `SecurityContextException`. They appear only as the error kinds `DataAccess` and `SecurityContext`.
- The transport round trip through `ProxyReaderApi`, and what the transaction manager does afterwards. Both are I/O, and those classes are not part of this model.
- Creating exception classes by reflection from a status table entry. An error-kind tag replaces it.
- Masked or secondary status-word matching. Lookup is by exact key only, since no code shown does anything else.
- Any response-length check inside the base class `Command`. That class is not part of this model. The parser works for data of any length.
- `Hex.ToByteArray`: how `HexUtil.toByteArray` treats characters that are not hex digits is not known. The model reads each of them as 0, and only allows even-length text (the decoder always passes 20 code points).
- `AtrPattern`: Java strings are UTF-16 and may hold lone surrogates. Dafny strings hold Unicode scalar values, so such strings are not modelled. A character above U+FFFF counts as one character in the model but as two UTF-16 units in Java's `group(2)`, so whenever the 20-character group holds one, `HexUtil.toByteArray` pairs the digits after it differently and the decoded bytes differ from the model's.
- `CommandReadCeilings.RecordPutsMap`, `CommandReadCeilings.RecordModeWritesNine`: these are stated only for a first ceiling number that does not overflow `int` over the nine keys. The method itself covers every input, with wrap-around.
