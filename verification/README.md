# WinFIOL message codec and file logger: a verified model

Two parts of the operations procedure support parser are modelled in Dafny and proved correct.

**The WinFIOL message codec.** The nine proto3 messages of `winfiolAxeMed.proto` come with two parsers
each (selected by a build flag), two serializers, a size calculator, merge, copy, clear and swap. What
these pieces mean is stated once for every schema of string and number fields:

- `Wire`, `Utf8` and `Fields` hold the wire format itself: varints, tags, sign extension, UTF-8, and
  records with nested groups. `Grammar` states the format a second time, as a relation between records
  and bytes with its numbers written out, and proves that readers and writers agree with it. The format
  follows the sections "Base 128 Varints", "Message Structure", "Length-Delimited Records", "Last One
  Wins" and "Groups" of the Protocol Buffers Encoding guide, and sections 3 and 4 of RFC 3629.
- `Messages` defines parsing as a fold over the records of the input, serializing and merging;
  `CodecLaws` proves the laws they obey together, and `ParserVariants` follows the two generated
  parsers branch by branch and proves that they agree, and where each stops.
- `WireIo` reads buffers with a cursor and writes into streams and windows of arrays.
- `ConnectRequests`, `StreamMessages` and `GenericResponses` hold the message classes as objects that
  change in place, every method tied to the specification. They cover every kind of field. `Schemas`
  lists all nine messages; the other six are instances of the same laws.

The group nesting limit is a parameter of every parse, so the laws hold for any limit. An enum is open:
its field holds any int32. A string is a byte string whose length fits an int. Acceptance means that the
whole input was consumed: the first parser ended at the end of the buffer with no tag remembered, the
second ended legitimately at the end of the stream. The state of a message after a refused parse is
described by the contracts of neither `ParseFromArray` nor `ParseFromStream`.

**The file logger.** `CHA_FileLogger` keeps a default log and a map of further logs, opens and closes
descriptors, and registers with a log source through `CHA_Logger`. `LogTable` is the state machine, with
every answer of open, stat and chmod part of the operation. `LogRuns` and `LogLaws` prove what holds
over all runs, `LogRefinement` that what is written to the files refines a machine in which a log is a
name and a list of texts, and `LogOverwrites` when logOverwrite keeps the table in order. `LogEffects`
gives the whole effect of each operation, `LogPaths` that logs are named after the paths of their files.
`LogLifecycle` lets all operations mix, logOverwrite and detachFrom included, and says exactly which
descriptors are lost. `FileLoggers` is the imperative class; a descriptor may only be closed while it is
open, map iteration picks entries in any order, and no operation asks for more than that the descriptors
in the table are open and distinct. Replacing an entry of the map is modelled as
replace-on-existing-key, the intent stated at `CHA_FileLogger.C` lines 365 to 373. Path normalisation is an unknown function
that does not make a name empty.

Where the code does not do what one would expect, the model follows the code:

- A default value on the wire overwrites a field while merging skips defaults, so concatenating inputs is
  not always merging; `ConcatenationIsMergeExactly` says exactly when it is, and
  `ConcatenationNeedNotMerge` gives bytes for which it is not.
- An append with an empty name drops the name of the default log, whatever id it was for, and a failed
  open for the default id does too; both keep its descriptor open (`CHA_FileLogger.C:271-274`, `288-292`).
  `AppendLeavesDefaultAlone` and `NameIffOpenExactly` say when that matters, `LostDescriptor` how
  destruction then leaves it open; `CloseAllReleases` gives the exact condition.
- The empty-name path of logAppend has no return statement (`CHA_FileLogger.C:271-274`, `383-384`), so what a
  caller sees there is undefined. INVALID_LOG_FILE, which the path assigns, stands for the intent.
- The table keeps its logs when the source goes away, and nothing closes their descriptors any more, except
  that logOverwrite still closes the default log's (`DetachLeaks`).
- A source tells only its dependents that it is destroyed, so a logger that is off keeps pointing to it.
  `DestroyedSourceIsLeftAlone` says exactly when that pointer is never used.
- Logs of the map get a header before every text that asks for one, because the loop works on a copy
  (`CHA_FileLogger.C:435-443`); the default log gets one header.
- logOverwrite keeps the table in order only under the condition of `OverwriteKeepsValidExactly`;
  `SafeOverwriteExactly` is the part of it that can be known before the call.

## Model

| member | source | states |
|---|---|---|
| `Wire.VarintRoundTrip` | ops-parser-lib/lib/proto/winfiolAxeMed.pb.cc:1143-1144 | a 64-bit value written as a base 128 varint is read back, with exactly the bytes after it left over |
| `Wire.EncodingSpells` | ops-parser-lib/lib/proto/winfiolAxeMed.pb.cc:3340-3342 | a varint is written low seven bits first, with the high bit set on every byte but the last |
| `Wire.VarintsReadExactly` | ops-parser-lib/lib/proto/winfiolAxeMed.pb.cc:1143-1144 | what is read as a 64-bit varint are exactly the spellings of up to ten bytes, overlong ones included, each as its number modulo 2^64 |
| `Wire.TagsReadExactly` | ops-parser-lib/lib/proto/winfiolAxeMed.pb.cc:1123-1126 | the same for tags, modulo 2^32 |
| `Wire.TagRoundTrip` | ops-parser-lib/lib/proto/winfiolAxeMed.pb.cc:1123-1126 | a 32-bit tag written as a varint is read back, with exactly the bytes after it left over |
| `Wire.VarintLength` | ops-parser-lib/lib/proto/winfiolAxeMed.pb.cc:3451-3456 | a number takes at most k bytes exactly when it is below 128^k |
| `Wire.VarintPrefixFree` | ops-parser-lib/lib/proto/winfiolAxeMed.pb.cc:1143-1146 | no varint is the beginning of another: equal byte strings that start with two varints start with the same one |
| `Wire.ReadDigitsLocal` | ops-parser-lib/lib/proto/winfiolAxeMed.pb.cc:1143-1144 | reading a varint depends on its own bytes only, whatever follows |
| `Wire.Int32OnTheWire` | ops-parser-lib/lib/proto/winfiolAxeMed.pb.cc:3340-3342 | an int32 is sign-extended, encoded, decoded and truncated to itself, and the encoding has exactly the size the size function gives |
| `Wire.WidthsAreModular` | ops-parser-lib/lib/proto/winfiolAxeMed.pb.cc:1144-1146 | widening an int32 keeps it modulo 2^64, and cutting any 64-bit value back keeps it modulo 2^32 |
| `Wire.CutIsModular` | ops-parser-lib/lib/proto/winfiolAxeMed.pb.cc:1144-1146 | a number of any size is cut to the int32 equal to it modulo 2^32 |
| `Wire.Int32SizeExact` | ops-parser-lib/lib/proto/winfiolAxeMed.pb.cc:3446-3469 | the size function is the encoded length for every int32, ten bytes for every negative one |
| `Wire.CachedSizeExact` | ops-parser-lib/lib/proto/winfiolAxeMed.pb.cc:1498-1499 | the int in which a message remembers its size is equal to it modulo 2^32, and is that size exactly when it is below 2^31 |
| `Utf8.ValidMeansEncoded` | ops-parser-lib/lib/proto/winfiolAxeMed.pb.cc:1316-1324 | the validity every string is checked for holds exactly of the encodings of sequences of Unicode scalar values |
| `Utf8.ScalarSpelled` | ops-parser-lib/lib/proto/winfiolAxeMed.pb.cc:1316-1324 | the number of bytes of each character number, and the bits in each byte, with no surrogates and nothing beyond U+10FFFF |
| `Utf8.Refused` | ops-parser-lib/lib/proto/winfiolAxeMed.pb.cc:1316-1324 | stray continuation bytes, overlong forms, surrogates and characters beyond U+10FFFF are refused |
| `Fields.ReadPayload` | ops-parser-lib/lib/proto/winfiolAxeMed.pb.cc:1171-1180 | a record read as unknown leaves a suffix of its input, carries the field number of its tag, and nests groups no deeper than allowed |
| `Grammar.InputsReadExactly` | ops-parser-lib/lib/proto/winfiolAxeMed.pb.cc:1171-1180 | an input is read as given records exactly when it spells them in the grammar of the wire format, its numbers written out, and groups are nested no deeper than allowed |
| `Grammar.EncodedBytes` | ops-parser-lib/lib/proto/winfiolAxeMed.pb.cc:1437-1440 | the bytes of each kind of record, with the wire types 0 to 5 in numbers |
| `Grammar.GuideExamples` | ops-parser-lib/lib/proto/winfiolAxeMed.pb.cc:3340-3342 | the examples of the encoding guide, byte for byte, and minus one as sixty-four one bits |
| `Grammar.FieldRoundTrip` | ops-parser-lib/lib/proto/winfiolAxeMed.pb.cc:1368-1371 | a record of any wire type, with any nesting of groups, is read back exactly when its nesting is within the limit, and refused otherwise |
| `Grammar.ReadFieldLocal` | ops-parser-lib/lib/proto/winfiolAxeMed.pb.cc:1122-1182 | reading a record, groups included, looks at no byte after it |
| `Grammar.ReadFieldsOfConcat` | ops-parser-lib/lib/proto/winfiolAxeMed.pb.cc:1122-1182 | an accepted input followed by anything gives the records of both in order, or is refused with the second |
| `Grammar.FieldsRoundTrip` | ops-parser-lib/lib/proto/winfiolAxeMed.pb.cc:1437-1440 | a written list of records is read back as the same list exactly when all of it is within the nesting limit |
| `Fields.FieldsSizeExact` | ops-parser-lib/lib/proto/winfiolAxeMed.pb.cc:1449-1453 | the computed size of the unknown fields is the number of bytes they are written as |
| `Messages.MergeAssociative` | ops-parser-lib/lib/proto/winfiolAxeMed.pb.cc:1518-1547 | merging is associative, unknown fields included |
| `Messages.MergeIdentity` | ops-parser-lib/lib/proto/winfiolAxeMed.pb.cc:1103-1117 | the cleared message is a left and a right identity of merging |
| `Messages.StepAllAccepts` | ops-parser-lib/lib/proto/winfiolAxeMed.pb.cc:1126-1170 | a sequence of records is accepted exactly when every string that goes into a field is valid UTF-8 |
| `Messages.UnknownFieldsAreKept` | ops-parser-lib/lib/proto/winfiolAxeMed.pb.cc:1171-1180 | unlisted numbers and listed numbers with the wrong wire type are all kept as unknown, in order of arrival, and the set of fields never changes |
| `Messages.LastOneWins` | ops-parser-lib/lib/proto/winfiolAxeMed.pb.cc:1126-1170 | a field holds what the last record carrying its tag says, or what it held before when there is none |
| `CodecLaws.ConcatenationIsMerge` | ops-parser-lib/lib/proto/winfiolAxeMed.pb.cc:1518-1547 | parsing accepted bytes followed by a serialized well-formed message gives the merge of what the bytes gave with that message |
| `CodecLaws.ConcatenationIsMergeExactly` | ops-parser-lib/lib/proto/winfiolAxeMed.pb.cc:1518-1547 | for any two accepted inputs, parsing their concatenation is merging what they parse to exactly when the second one resets no field: a default on the wire overwrites, a default in a merge does not |
| `CodecLaws.ResetIsNotMerge` | ops-parser-lib/lib/proto/winfiolAxeMed.pb.cc:1518-1547 | in every schema and for every field: a value followed on the wire by the default parses to the cleared message, while merging the two parses keeps the value |
| `CodecLaws.ConcatenationNeedNotMerge` | ops-parser-lib/lib/proto/winfiolAxeMed.pb.cc:3486-3496 | in bytes: a GenericResponse with status 1 followed by one with status 0 parses to status 0 and merges to status 1 |
| `CodecLaws.ParseOfConcat` | ops-parser-lib/lib/proto/winfiolAxeMed.pb.cc:1120-1189 | accepted bytes followed by more: the rest is parsed into the message the first part gave |
| `CodecLaws.ParseOfSerialized` | ops-parser-lib/lib/proto/winfiolAxeMed.pb.cc:1310-1373 | serialized bytes are accepted into any message exactly when the strings are valid UTF-8 and the groups within the limit, and then merge into it |
| `CodecLaws.NumberOnTheWire` | ops-parser-lib/lib/proto/winfiolAxeMed.pb.cc:1142-1148 | any varint of up to ten bytes after the tag of a number field sets that field to the int32 it is cut to |
| `CodecLaws.TextOnTheWire` | ops-parser-lib/lib/proto/winfiolAxeMed.pb.cc:1128-1133 | a string after its tag and length sets the field if it is UTF-8 and is refused otherwise |
| `CodecLaws.KnownFieldsAreOrdered` | ops-parser-lib/lib/proto/winfiolAxeMed.pb.cc:1310-1373 | the fields not at their default are written once each, by increasing number, and no others |
| `CodecLaws.ClearedDefaults` | ops-parser-lib/lib/proto/winfiolAxeMed.pb.cc:1103-1117 | after Clear every string is empty, every number zero and there are no unknown fields |
| `CodecLaws.RoundTrip` | ops-parser-lib/lib/proto/winfiolAxeMed.pb.cc:1310-1373 | serialize then parse into a cleared message is accepted exactly when all strings are valid UTF-8, and then returns an equal message |
| `CodecLaws.RoundTripExactly` | ops-parser-lib/lib/proto/winfiolAxeMed.pb.cc:1310-1373 | the messages that come back equal are exactly the well-formed ones: valid strings, unknown fields that are unknown, groups within the limit |
| `CodecLaws.ParseResultIsWellFormed` | ops-parser-lib/lib/proto/winfiolAxeMed.pb.cc:1122-1182 | parsing into a well-formed message gives a well-formed message |
| `CodecLaws.NormalisationIsAFixpoint` | ops-parser-lib/lib/proto/winfiolAxeMed.pb.cc:1310-1373 | what an accepted input parses to is serialized to bytes that parse to the same message, however the input was spelled |
| `CodecLaws.SerializeIsInjective` | ops-parser-lib/lib/proto/winfiolAxeMed.pb.cc:1310-1373 | well-formed messages with the same bytes are equal |
| `CodecLaws.SwappingRecords` | ops-parser-lib/lib/proto/winfiolAxeMed.pb.cc:1126-1170 | exchanging two adjacent records, however spelled, changes neither acceptance nor the message, unless both are unknown or both are the same field |
| `CodecLaws.UnknownRecordSurvives` | ops-parser-lib/lib/proto/winfiolAxeMed.pb.cc:1171-1180 | an unrecognised record put anywhere into an accepted input touches no field and takes its place among the unknown fields |
| `CodecLaws.UnknownFieldsAreReEmitted` | ops-parser-lib/lib/proto/winfiolAxeMed.pb.cc:1437-1440 | the unknown fields are written after all known ones, as bytes that parse back to exactly those unknown fields and no known field |
| `CodecLaws.SizeIsExact` | ops-parser-lib/lib/proto/winfiolAxeMed.pb.cc:1445-1501 | the size added up unknown fields first, then strings, then numbers, is the number of bytes written in field-number order |
| `ParserVariants.OwnTagIsExact` | ops-parser-lib/lib/proto/winfiolAxeMed.pb.cc:1126-1129 | the field number together with one byte of the tag selects a case exactly when the whole tag is that of the field, and such tags are below the cutoff of 127 |
| `ParserVariants.OwnTags` | ops-parser-lib/lib/proto/winfiolAxeMed.pb.cc:1129-1164 | the tags, in numbers, with which each of the nine messages reads a field of its own |
| `ParserVariants.PtrParseIsParse` | ops-parser-lib/lib/proto/winfiolAxeMed.pb.cc:1120-1189 | _InternalParse, branch for branch, ends at the end of the input exactly on the inputs Parse accepts, with the same message |
| `ParserVariants.StreamParseIsParse` | ops-parser-lib/lib/proto/winfiolAxeMed.pb.cc:1191-1307 | MergePartialFromCodedStream, branch for branch, ends legitimately exactly on the inputs Parse accepts, with the same message |
| `ParserVariants.VariantsAgree` | ops-parser-lib/lib/proto/winfiolAxeMed.pb.cc:1119-1308 | the two parsers accept the same inputs and build the same message |
| `ParserVariants.EndGroupExits` | ops-parser-lib/lib/proto/winfiolAxeMed.pb.cc:1173-1176 | after accepted records a stray end-group tag makes one parser stop with that tag remembered and the other fail; neither is acceptance |
| `ParserVariants.AcceptedPrefix` | ops-parser-lib/lib/proto/winfiolAxeMed.pb.cc:1119-1308 | after accepted records each parser goes on with the rest from the message they gave |
| `ParserVariants.PtrStops` | ops-parser-lib/lib/proto/winfiolAxeMed.pb.cc:1173-1176 | in front of a tag that is 4 modulo 8, or 0, the first parser stops, remembers it and keeps the message |
| `ParserVariants.OtherStops` | ops-parser-lib/lib/proto/winfiolAxeMed.pb.cc:1288-1296 | the second parser stops at tag 0 without a legitimate end and fails at an end-group tag; a malformed tag fails the first and stops the second |
| `ParserVariants.BadTags` | ops-parser-lib/lib/proto/winfiolAxeMed.pb.cc:1178-1179 | field number 0 and the wire types 4, 6 and 7 make an unknown record bad |
| `WireIo.ReadDigitsAt` | ops-parser-lib/lib/proto/winfiolAxeMed.pb.cc:1143-1144 | the loop over the buffer reads the number the specification reads, or fails with it, and never past the end |
| `WireIo.ParseUnknown` | ops-parser-lib/lib/proto/winfiolAxeMed.pb.cc:1178-1179 | skipping and keeping an unknown record, nested groups included, terminates inside the buffer and reads what the specification reads |
| `WireIo.CodedOutputStream.WriteUnknownField` | ops-parser-lib/lib/proto/winfiolAxeMed.pb.cc:1368-1371 | written tag by tag and byte by byte, any unknown record, nested groups included, comes out as its encoding |
| `WireIo.WriteVarintToArray` | ops-parser-lib/lib/proto/winfiolAxeMed.pb.cc:3433-3435 | the loop that writes a varint puts exactly its bytes at target and touches nothing else |
| `WireIo.WriteStringToArray` | ops-parser-lib/lib/proto/winfiolAxeMed.pb.cc:1388-1390 | tag, length and bytes are put at target, as the stream form writes them, and nothing else is touched |
| `WireIo.WriteUnknownFieldToArray` | ops-parser-lib/lib/proto/winfiolAxeMed.pb.cc:1437-1440 | the same for any unknown record, nested groups included, always inside the window |
| `ConnectRequests.ConnectRequest.FieldNumbers` | ops-parser-lib/lib/proto/winfiolAxeMed.pb.cc:1316-1365 | each field of the class under its own field number |
| `StreamMessages.StreamMessage.FieldNumbers` | ops-parser-lib/lib/proto/winfiolAxeMed.pb.cc:2512-2536 | each field of the class under its own field number |
| `GenericResponses.GenericResponse.FieldNumbers` | ops-parser-lib/lib/proto/winfiolAxeMed.pb.cc:3415-3418 | each field of the class under its own field number |
| `ConnectRequests.SixInOrder` | ops-parser-lib/lib/proto/winfiolAxeMed.pb.cc:1315-1371 | the bytes are those of the fields 1 to 6 in this order, then the unknown fields |
| `StreamMessages.ThreeInOrder` | ops-parser-lib/lib/proto/winfiolAxeMed.pb.cc:2511-2541 | the bytes are those of the fields 1 to 3 in this order, then the unknown fields |
| `GenericResponses.InOrder` | ops-parser-lib/lib/proto/winfiolAxeMed.pb.cc:3414-3423 | the bytes are those of field 1, then the unknown fields |
| `ConnectRequests.ConnectRequest.Clear` | ops-parser-lib/lib/proto/winfiolAxeMed.pb.cc:1103-1117 | the request becomes the cleared message |
| `ConnectRequests.ConnectRequest.InternalParse` | ops-parser-lib/lib/proto/winfiolAxeMed.pb.cc:1120-1189 | from any state and position: stops where, how and with the message the branch-for-branch specification says, always inside the buffer |
| `ConnectRequests.ConnectRequest.ParseFromArray` | ops-parser-lib/lib/proto/winfiolAxeMed.pb.cc:1120-1189 | accepts exactly the inputs Parse accepts and then holds their message |
| `ConnectRequests.ConnectRequest.MergePartialFromCodedStream` | ops-parser-lib/lib/proto/winfiolAxeMed.pb.cc:1191-1307 | from any state and stream position: the outcome and the message of the stream specification |
| `ConnectRequests.ConnectRequest.ParseFromStream` | ops-parser-lib/lib/proto/winfiolAxeMed.pb.cc:1191-1307 | accepts exactly the inputs Parse accepts and then holds their message, as ParseFromArray does |
| `ConnectRequests.ConnectRequest.SerializeWithCachedSizes` | ops-parser-lib/lib/proto/winfiolAxeMed.pb.cc:1310-1373 | appends the serialized message to the output |
| `ConnectRequests.ConnectRequest.InternalSerializeWithCachedSizesToArray` | ops-parser-lib/lib/proto/winfiolAxeMed.pb.cc:1375-1443 | writes the same bytes from target on, returns the end of that window and leaves every other byte of the array alone |
| `ConnectRequests.ConnectRequest.ByteSizeLong` | ops-parser-lib/lib/proto/winfiolAxeMed.pb.cc:1445-1501 | returns the number of bytes both serializers write, and caches it cast to an int: the same number exactly when it is below 2^31 |
| `ConnectRequests.ConnectRequest.MergeFrom` | ops-parser-lib/lib/proto/winfiolAxeMed.pb.cc:1518-1547 | the new value is the merge of the old one with the source |
| `ConnectRequests.ConnectRequest.CopyFrom` | ops-parser-lib/lib/proto/winfiolAxeMed.pb.cc:1556-1561 | the new value equals the source, from any state, also when it is copied to itself |
| `ConnectRequests.ConnectRequest.InternalSwap` | ops-parser-lib/lib/proto/winfiolAxeMed.pb.cc:1567-1580 | the two messages exchange all fields and unknown fields |
| `StreamMessages.StreamMessage.Clear` | ops-parser-lib/lib/proto/winfiolAxeMed.pb.cc:2369-2379 | the message becomes the cleared message |
| `StreamMessages.StreamMessage.InternalParse` | ops-parser-lib/lib/proto/winfiolAxeMed.pb.cc:2382-2429 | from any state and position: stops where, how and with the message the branch-for-branch specification says, always inside the buffer |
| `StreamMessages.StreamMessage.ParseFromArray` | ops-parser-lib/lib/proto/winfiolAxeMed.pb.cc:2382-2429 | accepts exactly the inputs Parse accepts and then holds their message |
| `StreamMessages.StreamMessage.MergePartialFromCodedStream` | ops-parser-lib/lib/proto/winfiolAxeMed.pb.cc:2431-2503 | from any state and stream position: the outcome and the message of the stream specification |
| `StreamMessages.StreamMessage.ParseFromStream` | ops-parser-lib/lib/proto/winfiolAxeMed.pb.cc:2431-2503 | accepts exactly the inputs Parse accepts and then holds their message, as ParseFromArray does |
| `StreamMessages.StreamMessage.SerializeWithCachedSizes` | ops-parser-lib/lib/proto/winfiolAxeMed.pb.cc:2506-2543 | appends the serialized message to the output |
| `StreamMessages.StreamMessage.InternalSerializeWithCachedSizesToArray` | ops-parser-lib/lib/proto/winfiolAxeMed.pb.cc:2545-2585 | writes the same bytes from target on, returns the end of that window and leaves every other byte of the array alone |
| `StreamMessages.StreamMessage.ByteSizeLong` | ops-parser-lib/lib/proto/winfiolAxeMed.pb.cc:2587-2623 | returns the number of bytes both serializers write, and caches it cast to an int: the same number exactly when it is below 2^31 |
| `StreamMessages.StreamMessage.MergeFrom` | ops-parser-lib/lib/proto/winfiolAxeMed.pb.cc:2640-2658 | the new value is the merge of the old one with the source |
| `StreamMessages.StreamMessage.CopyFrom` | ops-parser-lib/lib/proto/winfiolAxeMed.pb.cc:2667-2672 | the new value equals the source, from any state, also when it is copied to itself |
| `StreamMessages.StreamMessage.InternalSwap` | ops-parser-lib/lib/proto/winfiolAxeMed.pb.cc:2678-2686 | the two messages exchange all fields and unknown fields |
| `GenericResponses.GenericResponse.Clear` | ops-parser-lib/lib/proto/winfiolAxeMed.pb.cc:3320-3328 | the response becomes the cleared message |
| `GenericResponses.GenericResponse.InternalParse` | ops-parser-lib/lib/proto/winfiolAxeMed.pb.cc:3331-3363 | from any state and position: stops where, how and with the message the branch-for-branch specification says, always inside the buffer |
| `GenericResponses.GenericResponse.ParseFromArray` | ops-parser-lib/lib/proto/winfiolAxeMed.pb.cc:3331-3363 | accepts exactly the inputs Parse accepts and then holds their message |
| `GenericResponses.GenericResponse.MergePartialFromCodedStream` | ops-parser-lib/lib/proto/winfiolAxeMed.pb.cc:3365-3406 | from any state and stream position: the outcome and the message of the stream specification |
| `GenericResponses.GenericResponse.ParseFromStream` | ops-parser-lib/lib/proto/winfiolAxeMed.pb.cc:3365-3406 | accepts exactly the inputs Parse accepts and then holds their message, as ParseFromArray does |
| `GenericResponses.GenericResponse.SerializeWithCachedSizes` | ops-parser-lib/lib/proto/winfiolAxeMed.pb.cc:3409-3425 | appends the serialized message to the output |
| `GenericResponses.GenericResponse.InternalSerializeWithCachedSizesToArray` | ops-parser-lib/lib/proto/winfiolAxeMed.pb.cc:3427-3444 | writes the same bytes from target on, returns the end of that window and leaves every other byte of the array alone |
| `GenericResponses.GenericResponse.ByteSizeLong` | ops-parser-lib/lib/proto/winfiolAxeMed.pb.cc:3446-3469 | returns the number of bytes both serializers write, and caches it cast to an int: the same number exactly when it is below 2^31 |
| `GenericResponses.GenericResponse.MergeFrom` | ops-parser-lib/lib/proto/winfiolAxeMed.pb.cc:3486-3496 | the new value is the merge of the old one with the source |
| `GenericResponses.GenericResponse.CopyFrom` | ops-parser-lib/lib/proto/winfiolAxeMed.pb.cc:3505-3510 | the new value equals the source, from any state, also when it is copied to itself |
| `GenericResponses.GenericResponse.InternalSwap` | ops-parser-lib/lib/proto/winfiolAxeMed.pb.cc:3516-3520 | the two messages exchange all fields and unknown fields |
| `LogTable.RemoveFirstRemoves` | ops-parser-lib/src/main/cpp/common/CHA_Model.C:36-38 | unregistering takes one registration of the client off the source's list and leaves the other dependents in order |
| `LogTable.TurnOnKeepsValid` | ops-enm-parser/src/main/cpp/cri/CHA_Logger.C:68-86 | turning logging on registers at most once and leaves the other dependents alone |
| `LogTable.TurnOffKeepsValid` | ops-enm-parser/src/main/cpp/cri/CHA_Logger.C:90-102 | turning logging off with an empty table unregisters the logger and nobody else |
| `LogRuns.Step` | ops-enm-parser/src/main/cpp/cri/CHA_FileLogger.C:94-384 | each operation, with any answer of the operating system, is defined without closing a descriptor that is not open, and keeps ownership, distinct names and registration |
| `LogRuns.LogAppendKeepsValid` | ops-enm-parser/src/main/cpp/cri/CHA_FileLogger.C:262-384 | logAppend keeps the invariant on every one of its exits |
| `LogRuns.InstallKeepsValid` | ops-enm-parser/src/main/cpp/cri/CHA_FileLogger.C:349-374 | installing a new file under a name that is not in use keeps ownership, distinct names and registration |
| `LogRuns.InstallAccounts` | ops-enm-parser/src/main/cpp/cri/CHA_FileLogger.C:349-374 | what the id stood for is closed exactly once: every open descriptor stays in one place and nothing is lost |
| `LogRuns.CloseLogKeepsValid` | ops-enm-parser/src/main/cpp/cri/CHA_FileLogger.C:130-178 | closeLog keeps the invariant, the default log and the others alike |
| `LogLaws.Run` | ops-enm-parser/src/main/cpp/cri/CHA_FileLogger.C:94-384 | over every run: open descriptors are those of the table, pairwise distinct; no path is open under two ids; logging is on exactly while registered once; other dependents are untouched |
| `LogLaws.StartedIsValid` | ops-enm-parser/src/main/cpp/cri/CHA_FileLogger.C:44-50 | a logger fresh from its constructor satisfies the invariant |
| `LogLaws.CloseAllReleases` | ops-enm-parser/src/main/cpp/cri/CHA_FileLogger.C:94-126 | closing all logs empties the table, and releases every descriptor exactly when logging is on or the default log has none; destruction also unregisters |
| `LogLaws.LostDescriptor` | ops-enm-parser/src/main/cpp/cri/CHA_FileLogger.C:288-292 | from any state whose only log is the default one, any operation that drops its name, such as a failed open for the default id, then a close of another id, and destruction then leaves the descriptor open |
| `LogLaws.StepKeepsNameIffOpen` | ops-enm-parser/src/main/cpp/cri/CHA_FileLogger.C:271-292 | one operation parts the default log's name from its descriptor exactly when it drops the name and there is one to drop |
| `LogLaws.NameStaysWithFdExactly` | ops-enm-parser/src/main/cpp/cri/CHA_FileLogger.C:271-292 | what a caller can check before the call: whatever open, stat and chmod answer, an append keeps the default log's name and descriptor together if and only if there is no name to drop, or the append is for another id and its name is not empty |
| `LogLaws.NameIffOpenExactly` | ops-enm-parser/src/main/cpp/cri/CHA_FileLogger.C:271-292 | in all states of a run the default name is non-empty exactly while its descriptor is open, if and only if no operation that drops the name finds one to drop |
| `LogLaws.CleanRunReleases` | ops-enm-parser/src/main/cpp/cri/CHA_FileLogger.C:54-57 | after such a run, destruction leaks nothing |
| `LogLaws.AppendAnswers` | ops-enm-parser/src/main/cpp/cri/CHA_FileLogger.C:317-375 | after a successful open: a repeated (name, id) changes nothing and is no problem; the refusal comes exactly when another id has the path, and changes nothing; otherwise the id now has it |
| `LogRuns.AppendRefused` | ops-enm-parser/src/main/cpp/cri/CHA_FileLogger.C:271-306 | without a successful open only the default log's name can be lost, exactly for an empty name or a failed open of the default id; the return code says which case it was |
| `LogLaws.AppendFrames` | ops-enm-parser/src/main/cpp/cri/CHA_FileLogger.C:323-375 | an append with a non-empty name changes no entry, descriptor or content of another id |
| `LogLaws.AppendLeavesDefaultAlone` | ops-enm-parser/src/main/cpp/cri/CHA_FileLogger.C:271-274 | an append for another id leaves the default log alone exactly when its name is non-empty or there was no default name to lose |
| `LogLaws.EmptyNameReachesTheDefault` | ops-enm-parser/src/main/cpp/cri/CHA_FileLogger.C:271-274 | a reachable state where it does not: with the default log of a fresh logger open, an append for another id with an empty name changes the default log |
| `LogLaws.CloseFrames` | ops-enm-parser/src/main/cpp/cri/CHA_FileLogger.C:130-178 | a close changes no entry, descriptor or content of another id, and with logging on the id is closed afterwards |
| `LogLaws.CloseTurnsOffWithTheLast` | ops-enm-parser/src/main/cpp/cri/CHA_FileLogger.C:173-174 | logging stays on exactly while the table still holds a log, and only then is the registration given up |
| `LogEffects.AppendInstalls` | ops-enm-parser/src/main/cpp/cri/CHA_FileLogger.C:278-374 | the file that is installed was opened for appending under the caller's path; its entry is the normalised name, its descriptor and the first-time flag, and what the id stood for is closed |
| `LogEffects.CloseEffect` | ops-enm-parser/src/main/cpp/cri/CHA_FileLogger.C:130-178 | the whole effect of closeLog on the entries and the files, and none with logging off |
| `LogEffects.CloseAllEffect` | ops-enm-parser/src/main/cpp/cri/CHA_FileLogger.C:94-126 | the whole effect of closeAllLogs; logging stays as it was |
| `LogEffects.TurnOnEffect` | ops-enm-parser/src/main/cpp/cri/CHA_Logger.C:68-86 | a logger that is turned on is registered behind the other clients |
| `LogEffects.TurnOffEffect` | ops-enm-parser/src/main/cpp/cri/CHA_Logger.C:90-102 | one that is turned off loses its first registration, and the order of the others stays |
| `LogEffects.DetachEffect` | ops-enm-parser/src/main/cpp/cri/CHA_Logger.C:149-166 | losing the source changes no entry and no file |
| `LogEffects.StripEtxAt` | ops-enm-parser/src/main/cpp/cri/CHA_FileLogger.C:413-422 | the first character 3 is taken out of a text, and nothing else |
| `LogEffects.UpdateEffect` | ops-enm-parser/src/main/cpp/cri/CHA_FileLogger.C:387-444 | every open log gets the text at its end, directly behind a header if one is asked for and the log has had none; only the default log remembers that |
| `LogEffects.UpdateWritesNowhereElse` | ops-enm-parser/src/main/cpp/cri/CHA_FileLogger.C:425-443 | no file of another descriptor is written to, nor that of a default log without a name |
| `LogEffects.UpdateIgnored` | ops-enm-parser/src/main/cpp/cri/CHA_Logger.C:111-124 | with logging off, from another source or for an empty text nothing changes |
| `LogEffects.OverwriteAnswers` | ops-enm-parser/src/main/cpp/cri/CHA_FileLogger.C:182-259 | the four return codes of logOverwrite, each exactly when it is given; success means the id is open under the normalised trimmed name |
| `LogEffects.OverwriteInstalls` | ops-enm-parser/src/main/cpp/cri/CHA_FileLogger.C:211-252 | the file that is installed was opened under the trimmed name, not for appending; only the default descriptor is closed |
| `LogEffects.OverwriteFrames` | ops-enm-parser/src/main/cpp/cri/CHA_FileLogger.C:211-252 | the other logs of the map keep entry and file |
| `LogEffects.OverwriteRefusedEffect` | ops-enm-parser/src/main/cpp/cri/CHA_FileLogger.C:190-258 | the whole effect of a logOverwrite that installs nothing |
| `LogPaths.LifeKeepsPaths` | ops-enm-parser/src/main/cpp/cri/CHA_FileLogger.C:182-384 | over any run of any operations each entry, and a named default log with a descriptor, is named after the path its file was opened under |
| `LogPaths.RunIsLife` | ops-enm-parser/src/main/cpp/cri/CHA_FileLogger.C:94-384 | the runs without logOverwrite and detachFrom are among the runs of any operations, with the same states |
| `LogPaths.RunKeepsPaths` | ops-enm-parser/src/main/cpp/cri/CHA_FileLogger.C:262-384 | from the constructor on, the path of an open log's file normalises to the log's name, and the file was opened for appending |
| `LogRefinement.RunRefines` | ops-enm-parser/src/main/cpp/cri/CHA_FileLogger.C:387-444 | over every run, what has been written to each open log since it was opened is the rendering of the texts appended since then, and nothing else |
| `LogRefinement.LogsHoldTheirTexts` | ops-enm-parser/src/main/cpp/cri/CHA_FileLogger.C:387-444 | whatever has happened since construction, what has been written through the descriptor of an open log is exactly the texts appended while it was open, in order; in the default log one header directly before the first text that asked for one, in another log one directly before each that did |
| `LogRefinement.AppendLogRefines` | ops-enm-parser/src/main/cpp/cri/CHA_FileLogger.C:410-444 | one text reaches the default log and every entry of the map, without its first end-of-text character |
| `LogRefinement.RenderingsContain` | ops-enm-parser/src/main/cpp/cri/CHA_FileLogger.C:387-407 | both renderings hold all texts in order; the default log has a single header if any text asked for one, another log has one for each text that did |
| `LogRefinement.DefaultHeaderPlace` | ops-enm-parser/src/main/cpp/cri/CHA_FileLogger.C:396-399 | the default log's header stands directly before the first text that asks for one |
| `LogRefinement.OtherHeaderPlaces` | ops-enm-parser/src/main/cpp/cri/CHA_FileLogger.C:396-399 | in another log a header stands directly before each text that asks for one |
| `LogOverwrites.TrimOf` | ops-enm-parser/src/main/cpp/parse/OZT_Misc.C:152-177 | trimming takes the white space off both ends of a name, and nothing else |
| `LogOverwrites.SpacesAre` | ops-enm-parser/src/main/cpp/parse/OZT_Misc.C:152-177 | white space are the characters 32 and 9 to 13 |
| `LogOverwrites.OverwriteKeepsValidExactly` | ops-enm-parser/src/main/cpp/cri/CHA_FileLogger.C:182-259 | for any answers of the operating system, logOverwrite keeps the invariant exactly under the stated condition: it gives up the default descriptor for any id, compares no names and closes nothing it replaces |
| `LogOverwrites.SafeOverwriteExactly` | ops-enm-parser/src/main/cpp/cri/CHA_FileLogger.C:182-259 | what a caller can check before the call: logOverwrite keeps the invariant whatever open, stat and chmod answer, if and only if the trimmed name is empty, or the default log has no name and, if there is a source, the path is not in use and the id not open in the map |
| `LogOverwrites.OverwriteBreaksTheTable` | ops-enm-parser/src/main/cpp/cri/CHA_FileLogger.C:200-208 | a reachable state where it does not: with the default log of a fresh logger open, an overwrite for another id closes its descriptor and leaves its name |
| `LogLifecycle.AnyStep` | ops-enm-parser/src/main/cpp/cri/CHA_FileLogger.C:94-384 | any operation, logOverwrite and detachFrom included, in any reachable state: closes only open descriptors, keeps each in one place, never writes to a lost one, and loses exactly those of Lost |
| `LogLifecycle.Life` | ops-enm-parser/src/main/cpp/cri/CHA_FileLogger.C:94-384 | over any run of any operations: what is lost stays open, with its contents, for good |
| `LogLifecycle.DestructionLeaks` | ops-enm-parser/src/main/cpp/cri/CHA_FileLogger.C:54-57 | what is still open after destruction, after any run: what the operations of the run lost and, if logging is off by then, all that the table still holds |
| `LogLifecycle.OnlyOverwriteClosesWithoutSource` | ops-enm-parser/src/main/cpp/cri/CHA_Logger.C:149-166 | once the source is gone, no run of any operations, destruction included, keeps a new descriptor open, and the only one closed is the default log's, exactly when the run has an overwrite with a name that is not blank |
| `LogLifecycle.DetachLeaks` | ops-enm-parser/src/main/cpp/cri/CHA_Logger.C:149-166 | a logger whose source goes while it logs leaks every descriptor it owns, whatever is called afterwards, except the default log's exactly when an overwrite with a name that is not blank is among the calls |
| `LogLifecycle.OverwriteClosesAfterDetach` | ops-enm-parser/src/main/cpp/cri/CHA_FileLogger.C:203-208 | in every state with the default log open, an overwrite after the source has gone closes its descriptor |
| `LogLifecycle.LifeIsKnown` | ops-enm-parser/src/main/cpp/cri/CHA_Logger.C:68-102 | over any run of any operations, the logger is registered with its source exactly once while logging is on and not at all while it is off |
| `LogLifecycle.DestroyedSourceIsLeftAlone` | ops-enm-parser/src/main/cpp/cri/CHA_Logger.C:149-166 | after its source is destroyed, the logger and its destructor never use it again if and only if the logger was registered and so heard of it, had no source, or no later call gets as far as turnOn |
| `FileLoggers.FileLogger.constructor` | ops-enm-parser/src/main/cpp/cri/CHA_FileLogger.C:44-50 | the logger starts with no log, logging off and not registered |
| `FileLoggers.FileLogger.TurnLoggingOn` | ops-enm-parser/src/main/cpp/cri/CHA_Logger.C:68-86 | registers once and answers, or refuses without a source and changes nothing |
| `FileLoggers.FileLogger.TurnLoggingOff` | ops-enm-parser/src/main/cpp/cri/CHA_Logger.C:90-102 | unregisters when logging was on |
| `FileLoggers.FileLogger.DetachFrom` | ops-enm-parser/src/main/cpp/cri/CHA_Logger.C:149-166 | from its own source and with logging on: logging is off and the source gone, the table and the files untouched; otherwise nothing |
| `FileLoggers.FileLogger.Update` | ops-enm-parser/src/main/cpp/cri/CHA_Logger.C:107-145 | a text from its own source is appended while logging is on, anything else changes nothing |
| `FileLoggers.FileLogger.GetLog` | ops-enm-parser/src/main/cpp/cri/CHA_FileLogger.C:61-91 | with logging on the name under which the id is open, otherwise the empty string |
| `FileLoggers.FileLogger.Append` | ops-enm-parser/src/main/cpp/cri/CHA_FileLogger.C:262-384 | the new state is that of the operation for the answers the operating system gave; stat, open and chmod are asked about the caller's path and no other; with distinct names the return code is that of the operation, otherwise one of those an order of the map can give |
| `FileLoggers.FileLogger.InstallUnlessOpen` | ops-enm-parser/src/main/cpp/cri/CHA_FileLogger.C:323-374 | the search over the map ends in one state in any order of iteration: same id, another id, or installed; with distinct names it has one answer too |
| `FileLoggers.FileLogger.PutInPlace` | ops-enm-parser/src/main/cpp/cri/CHA_FileLogger.C:349-374 | the new file is in the table and what the id stood for is closed |
| `FileLoggers.FileLogger.CloseOne` | ops-enm-parser/src/main/cpp/cri/CHA_FileLogger.C:130-178 | the new state is that of the operation; only an open descriptor is closed, in any state any run can reach |
| `FileLoggers.FileLogger.CloseEntries` | ops-enm-parser/src/main/cpp/cri/CHA_FileLogger.C:105-118 | the loop closes every descriptor of the map exactly once |
| `FileLoggers.FileLogger.CloseAll` | ops-enm-parser/src/main/cpp/cri/CHA_FileLogger.C:94-126 | the new state is that of the operation, in any state any run can reach |
| `FileLoggers.FileLogger.Destruct` | ops-enm-parser/src/main/cpp/cri/CHA_FileLogger.C:54-57 | closes all logs and unregisters if logging is on, and closes nothing if it is off, as after detachFrom |
| `FileLoggers.FileLogger.TrimName` | ops-enm-parser/src/main/cpp/parse/OZT_Misc.C:152-177 | the loops from both ends give the trimmed name |
| `FileLoggers.FileLogger.Overwrite` | ops-enm-parser/src/main/cpp/cri/CHA_FileLogger.C:182-259 | the new state and the return code are those of the operation as it is written, trimming included; stat, open and chmod are asked about the trimmed name and no other |
| `FileLoggers.FileLogger.AppendLine` | ops-enm-parser/src/main/cpp/cri/CHA_FileLogger.C:387-407 | one complete write through the descriptor, the header in front of the first text that asks for one |
| `FileLoggers.FileLogger.AppendToEntries` | ops-enm-parser/src/main/cpp/cri/CHA_FileLogger.C:430-443 | every entry gets its line once, in any order of iteration, and no other descriptor is written |
| `FileLoggers.FileLogger.AppendToLogs` | ops-enm-parser/src/main/cpp/cri/CHA_FileLogger.C:410-444 | the new state is that of the operation: the default log's first-time flag is kept, those of the map are not |

## Left out

- The protobuf runtime is not part of this model: its primitives are taken from the public standards. A tag
  or length varint may have up to ten bytes and is read the same way by both parsers; limits a particular
  version of the runtime sets on such over-long varints, and the 2 GiB limit on a whole message, are not modelled.
- The other six message classes repeat the code of the three that are modelled; only their schemas are given.
- Unknown fixed-width values are kept as their raw bytes, which is what is written back.
- The setters, clearers and move assignment of the header: single assignments, and swaps already covered.
- Reflection, descriptors, arenas, default instances and the generic merge and copy over the message base class.
- RPC stubs and services, and the copy of the codec built for another platform.
- The contents of a message after a refused parse.
- LogRuns.AppendRefused: the return code it gives for an empty name is the intent; the source has no return
  statement on that path.
- FileLoggers.FileLogger.Append: the same, for an empty name.
- FileLoggers.FileLogger.AppendLine: does not model file locking, nor writes that are cut short or fail.
- LogTable.RemoveFirstRemoves: does not model the list of sources a client keeps itself; it mirrors the registrations.
- Error texts, traces and the wording of the header block.
- Reading the headers setting from the environment: it is an argument of `Update`.
- detachFrom and logOverwrite as steps of the runs of `LogLaws.Run`: they break its invariant. They are steps of
  the runs of `LogLifecycle.Life`.
- What happens once a destroyed source is used: the runs treat it as if it were alive.
- What a file held before it was opened, and what an overwrite does to it: a descriptor starts with nothing written.
- The permission bits given to open and chmod.
- The pipe, mail and printer loggers.
