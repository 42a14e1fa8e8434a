# TCMT: a verified model of the monitor's own algorithms and protocols

TCMT is a hardware monitor: C++ collectors, a C# front end, and between them a shared memory
block, a local socket and a few background threads. Most of it asks the operating system. This
project models the parts that are algorithms and protocols of its own, and proves what they are
for:

- **Text.** `Utf.dfy`, `TextLaws.dfy`, `Wide.dfy` say on bit vectors what the UTF-8, UTF-16 and
  wide converters compute; `StringConverter.dfy` and `WinUtils.dfy` are their loops. Every UTF-16
  string round trips, lone surrogates included; bytes round trip exactly when they are loose UTF-8;
  on well-formed input (RFC 3629, sections 3 and 4) the converters are the standard ones (RFC 2781,
  section 2.1).
- **Configuration.** `Config.dfy` is the algebra of reading and writing a JSON tree at dotted keys;
  `ConfigManager.dfy` is the code that walks and changes the tree in place, proved against it.
- **IPC.** `IPCData.dfy` is the wire format of the schema, `Handshake.dfy` the two parties as steps
  over two byte channels with reads and writes of any size, `BlockSchema.dfy` the packed block and
  the schema that describes it, `BlockAccess.dfy` the server's stores and the clients' reads,
  `Publication.dfy` and `PlainMembers.dfy` what a client reads under each published name.
- **Sequence lock.** `Seqlock.dfy` interleaves a writer, with its three exits, and a reader that
  follows the odd/even contract.
- **Background threads.** `Logger.dfy`, `HistoryLogger.dfy` and `Coordinator.dfy` are state machines
  over all interleavings, with the critical sections as methods that take the machine's steps.
- **Smaller cores.** `SmartJson.dfy` prints SMART attributes, `SmartJsonLaws.dfy` says when the text
  is legal JSON and legal UTF-8, `SmartJsonReads.dfy` what a reader gets out of it; `JsonGrammar.dfy`
  is RFC 8259 and `JsonReader.dfy` finds and reads values by it. `SmartReader.dfy` decodes an ATA
  sector, `MCPServer.dfy` limits rates, `StorageViewModel.dfy` keeps views across updates.

`Bytes.dfy` (bytes, little-endian numbers, C strings), `Sequences.dfy` (selections from a sequence)
and `Options.dfy` serve the others. A step is atomic and memory is sequentially consistent. Time is
an integer number of nanoseconds in `MCPServer.dfy` and the order of steps elsewhere.

## Where the code is not what one would expect

- `Logger`'s worker leaves its loop only if its look at the queue (`src/core/Utils/Logger.cpp:50`)
  finds it empty. If it finds lines there, the swap that follows is undone by the swap of the next
  pass, the worker goes round for ever and `Shutdown` never returns
  (`Logger.FoundQueuedNeverExits`, reached by `Logger.FoundQueuedHappens`). Nothing is lost, but
  order and termination hold only in the other case, and that is how they are stated.
- Both sides of the handshake read fixed-size messages with one `read`. A read that falls short
  makes the handshake fail although nothing is wrong with the bytes:
  `Handshake.SucceedsExactlyWithoutShortReads` is an equivalence, `Handshake.ShortReadsHappen` gives
  such a run for every schema and `Handshake.SuccessHappens` one that succeeds.
- A schema of more than 300 fields is accepted and cut, and its remaining bytes stay in the socket
  (`Handshake.LargeSchemaIsLeftUnread`).
- `IsValidUtf8` tests shapes, not the grammar. Every well-formed string passes, and of those that
  pass exactly the ones whose characters are scalar values in shortest form are well-formed
  (`TextLaws.WellFormedShapesIff`); C0 80 passes and is not (`TextLaws.OverlongPassesTheTest`).
- The two wide readers differ on a four-byte sequence that is cut off, and on nothing else
  (`Wide.ReadersAgreeIff`); neither yields anything beyond the basic plane, so wide text round trips
  exactly below U+10000 (`Wide.WideRoundTripIff`).
- `src/core/Config/ConfigManager.h:47` says that `GetDouble` falls back to the default when the value
  is not a number; the code does so for integers as well (`ConfigManager.IntegersReadBack`).
- `src/core/IPC/IPCData.h:174` speaks of up to 2 physical disks; the block has 8.
- A disk that has no attributes, or whose attributes print to 4096 bytes or more, keeps the text and
  the count of the disk that was in its slot before (`BlockAccess.AttributesAreTold`, with
  `BlockAccess.NoAttributesTellTheOld` and `BlockAccess.LongAttributesTellTheOld`).
- The printer of SMART attributes escapes quotes and backslashes only and codes surrogates one by
  one: its text is legal JSON exactly without control characters in the names and legal UTF-8
  exactly without surrogates (`SmartJsonLaws.PrintLegalIff`, `SmartJsonLaws.PrintUtf8Iff`).
- The counter of network adapters is not published, and slots beyond the adapters shown keep what was
  in them, so a client goes on reading adapters that are gone (`BlockAccess.AdaptersAreRead`).
- The readers' bounds tests can be passed by fields that lie outside the block: a text that starts
  past its end, a number whose 32-bit sum of offset and size wraps (`BlockAccess.StraysByWrapping`).
  No field of the schema is one of these (`BlockAccess.InsideNeverStrays`).
- Each lead byte whose sequence is cut short becomes U+FFFD on its own, and the bytes behind it are
  read anew (`TextLaws.UnitsOfBroken`); a whole form is read for its payload even if its other bytes
  are no continuation bytes (`TextLaws.UnitsOfWhole`).
- "gpu/0/brand" is published and never filled (`PlainMembers.BrandIsNeverFilled`), and
  "cpu/cores/logical" tells the physical cores (`PlainMembers.ReadingsAreReadByName`).
- The storage page takes new disks with one serial number in twice; every later update then throws
  before it changes anything (`StorageViewModel.StorageViewModel.BuildOrUpdatePhysicalDisks`).

## Model

| member | source | states |
|---|---|---|
| StringConverter.Utf8ToChar16 | src/core/Platform/Platform_macOS.cpp:371-418 | the reading loop computes `Units`, the function the text laws are about; it ends on every byte string |
| StringConverter.DecodeUtf8At | src/core/Platform/Platform_macOS.cpp:379-403 | one step of that loop: U+FFFD for one byte where a lead byte is stray or announces more bytes than there are, else the payload of the bytes it announces; never past the end |
| StringConverter.Char16ToUtf8 | src/core/Platform/Platform_macOS.cpp:420-459 | the writing loop computes `Bytes`, pairing surrogates where a high one meets a low one |
| StringConverter.DecodeUtf16At | src/core/Platform/Platform_macOS.cpp:424-434 | one step of that loop consumes one unit or a pair |
| StringConverter.Utf8ToWide | src/core/Platform/Platform_Linux.cpp:274-317 | the platform's wide reader, whose index may run past the end |
| StringConverter.WideToUtf8 | src/core/Platform/Platform_Linux.cpp:319-342 | the platform's wide writer |
| StringConverter.IsValidUtf8 | src/core/Platform/Platform_Linux.cpp:439-471 | accepts exactly the concatenations of 1- to 4-byte lead/continuation shapes |
| WinUtils.WstringToUtf8 | src/core/Utils/WinUtils.cpp:110-140 | the utility writer, which drops values beyond U+10FFFF |
| WinUtils.Utf8ToWstring | src/core/Utils/WinUtils.cpp:142-174 | the utility reader |
| WinUtils.IsLikelyUtf8 | src/core/Utils/WinUtils.cpp:179-196 | accepts exactly what `IsValidUtf8` accepts, on every byte string |
| TextLaws.UnitsOfBytes | src/core/Platform/Platform_macOS.cpp:371-459 | reading what was written gives back every sequence of 16-bit units, lone surrogates included |
| TextLaws.BytesInjective | src/core/Platform/Platform_macOS.cpp:420-459 | no two UTF-16 texts are written alike |
| TextLaws.CleaningIdempotent | src/core/Platform/Platform_macOS.cpp:371-459 | reading and writing arbitrary bytes twice is doing it once |
| TextLaws.UnitsOfBroken | src/core/Platform/Platform_Linux.cpp:360-376 | in any bytes, a lead byte that opens nothing or announces more bytes than there are becomes one U+FFFD and the byte behind it is read next |
| TextLaws.UnitsOfWhole | src/core/Platform/Platform_Linux.cpp:354-387 | any other lead byte is read together with the bytes it announces: their payload as RFC 2781 spells it, or one U+FFFD if it is past U+10FFFF |
| TextLaws.CutTextGetsReplacement | src/core/Platform/Platform_Linux.cpp:363 | an instance: the Latin-1 bytes 63 61 66 E9 are read as 0063 0061 0066 FFFD |
| TextLaws.BytesOfUnitsIff | src/core/Platform/Platform_macOS.cpp:371-459 | bytes survive being read and written if and only if they follow the UTF-8 grammar with surrogates let in singly |
| TextLaws.BytesAreShaped | src/core/Platform/Platform_macOS.cpp:420-507 | whatever the UTF-16 writer produces passes the validity test |
| TextLaws.WellFormedShapesIff | src/core/Platform/Platform_macOS.cpp:471-507 | of the strings the validity test accepts, exactly those are well-formed whose every character, read from the front, is a scalar value in its shortest form |
| TextLaws.WellFormedIsShaped | src/core/Platform/Platform_macOS.cpp:471-507 | every well-formed string is accepted |
| TextLaws.OverlongPassesTheTest | src/core/Platform/Platform_macOS.cpp:471-507 | the two differ: an overlong form is accepted, a witness for `WellFormedShapesIff` |
| TextLaws.ScalarTexts | src/core/Platform/Platform_Linux.cpp:344-429 | on UTF-8 of scalar values the reader yields their UTF-16 and the writer their UTF-8 |
| TextLaws.WellFormedIff | src/core/Platform/Platform_Linux.cpp:344-390 | the grammar of RFC 3629 section 4 describes exactly the encodings of scalar values |
| TextLaws.WellFormedRoundTrip | src/core/Platform/Platform_Linux.cpp:344-429 | on well-formed bytes the units are the UTF-16 of the scalar values and the bytes come back |
| TextLaws.Put16Spells | src/core/Platform/Platform_macOS.cpp:405-414 | a code point is written in UTF-16 as section 2.1 of RFC 2781 spells it |
| TextLaws.SpellingUnique | src/core/Platform/Platform_macOS.cpp:405-414 | that spelling is the only one |
| TextLaws.UnitsBound | src/core/Platform/Platform_macOS.cpp:371-373 | the space reserved for reading suffices: n bytes give at most n units |
| TextLaws.BytesBound | src/core/Platform/Platform_macOS.cpp:420-422 | the space reserved for writing suffices: n units give at most 3n bytes |
| Utf.Head16OfPut16 | src/core/Platform/Platform_macOS.cpp:405-434 | one UTF-16 step is undone except where a high surrogate meets a low one |
| Utf.Put8OfHead8 | src/core/Platform/Platform_macOS.cpp:379-459 | on the loose grammar one reading step is undone by one writing step |
| Wide.ReadersAgreeIff | src/core/Utils/WinUtils.cpp:142-174 | the two wide readers give the same text if and only if reading meets no cut four-byte sequence |
| Wide.ReadersAgreeOnShapes | src/core/Platform/Platform_Linux.cpp:274-317 | they agree on everything the validity test accepts |
| Wide.BothReadBroken | src/core/Platform/Platform_Linux.cpp:286-310 | both wide readers make a question mark of a stray byte and of a cut two- or three-byte sequence, and go on with the next byte |
| Wide.BothReadPayload | src/core/Utils/WinUtils.cpp:157-165 | both read up to three bytes that are there for their payload |
| Wide.BothReadFour | src/core/Platform/Platform_Linux.cpp:306-308 | four bytes are U+FFFD to both; of a cut four the platform reader makes U+FFFD and stops, the utility a question mark and goes on |
| Wide.WritersAgreeIff | src/core/Platform/Platform_Linux.cpp:319-342 | the two wide writers agree exactly on values up to U+10FFFF, and 4n bytes always suffice |
| Wide.WritersAreStandard | src/core/Utils/WinUtils.cpp:120-137 | up to U+10FFFF both write the UTF-8 of the code points |
| Wide.PutWideBeyond | src/core/Platform/Platform_Linux.cpp:334-339 | beyond it the platform's writer puts the low 18 bits into three continuation bytes behind F0 or-ed with the next 8; below 2^21 that is a four-byte form of the value |
| Wide.PutWideNegative | src/core/Platform/Platform_Linux.cpp:324-325 | a negative `wchar_t` is cut to its lowest byte by both |
| Wide.WideRoundTripIff | src/core/Platform/Platform_Linux.cpp:274-342 | wide text comes back if and only if it stays in the basic plane |
| Wide.WideOfIsBasic | src/core/Platform/Platform_Linux.cpp:274-317 | the reader never yields a value beyond the basic plane |
| Config.PartsOfConcat | src/core/Config/ConfigManager.cpp:28-37 | a dot between two keys joins their part lists |
| Config.PartsOfJoin | src/core/Config/ConfigManager.cpp:28-37 | every list of non-empty dotless names is the part list of some key |
| Config.GetPut | src/core/Config/ConfigManager.cpp:119-208 | after a write its key resolves to the value written |
| Config.GetPutBelow | src/core/Config/ConfigManager.cpp:119-208 | a longer key resolves inside the value written |
| Config.GetPutBeside | src/core/Config/ConfigManager.cpp:119-208 | a key that parts ways with the written one resolves as before, scalars on the path or not |
| Config.GetPutAbove | src/core/Config/ConfigManager.cpp:119-208 | a shorter key resolves to its old subtree with the rest of the key written in it |
| Config.PutPut | src/core/Config/ConfigManager.cpp:189-208 | of two writes to one key the later wins |
| Config.PutAbsorbs | src/core/Config/ConfigManager.cpp:189-208 | a write to a shorter key forgets a write below it |
| Config.PutBelow | src/core/Config/ConfigManager.cpp:189-208 | a write below a key just written is a write inside that value |
| Config.PutGet | src/core/Config/ConfigManager.cpp:119-208 | writing back what is there changes nothing |
| Config.PutCommutes | src/core/Config/ConfigManager.cpp:189-208 | writes to path-incomparable keys commute on every tree |
| Config.GetAppend | src/core/Config/ConfigManager.cpp:231-256 | an append makes its key the previous array plus the element, or the element alone if there was no array |
| Config.GetAppendBeside | src/core/Config/ConfigManager.cpp:231-256 | path-incomparable keys resolve as before an append |
| Config.GetAppendAll | src/core/Config/ConfigManager.cpp:231-256 | n appends leave the previous array and then the n elements in order |
| Config.AppendsToFreshKey | src/core/Config/ConfigManager.cpp:231-256 | on a missing key they leave exactly those elements |
| ConfigManager.SplitKey | src/core/Config/ConfigManager.cpp:28-37 | the loop yields the non-empty pieces between dots |
| ConfigManager.PutIsAssign | src/core/Config/ConfigManager.cpp:196-207 | at a path that is present, writing at the path and assigning through the pointer are one |
| ConfigManager.ConfigManager.ResolveKey | src/core/Config/ConfigManager.cpp:119-143 | the walk finds what reading at the key's parts means, or nothing |
| ConfigManager.ConfigManager.SetNested | src/core/Config/ConfigManager.cpp:189-208 | the walk with its replacements is one write at the key's parts; it throws, changing nothing, exactly for a one-part key on a scalar root |
| ConfigManager.ConfigManager.AppendToArray | src/core/Config/ConfigManager.cpp:231-256 | the walk with its replacements is one append at the key's parts |
| ConfigManager.ConfigManager.GetInt | src/core/Config/ConfigManager.cpp:159-165 | a stored integer wrapped to 32 bits; the default before loading, for a key without parts, for a missing key and for a value of another kind |
| ConfigManager.ConfigManager.GetDouble | src/core/Config/ConfigManager.cpp:167-174 | a stored floating value; the default before loading, for a key without parts, for a missing key and for a value of another kind |
| ConfigManager.IntegersReadBack | src/core/Config/ConfigManager.cpp:159-221 | a stored integer reads back wrapped to 32 bits; an unsigned one exactly below 2^31; as a double never |
| ConfigManager.FloatsReadBack | src/core/Config/ConfigManager.cpp:159-226 | a stored floating value reads back as itself, and as an integer never |
| IPCData.HeaderRoundTrip | src/core/IPC/IPCData.h:68-75 | the 16 header bytes hold every field of the header |
| IPCData.HeaderSlices | src/core/IPC/IPCData.h:68-75 | each member of the packed header at its offset, lowest byte first |
| IPCData.FieldRoundTrip | src/core/IPC/IPCData.h:77-90 | the 80 record bytes hold every field of a definition |
| IPCData.FieldSlices | src/core/IPC/IPCData.h:77-90 | each member of the packed record at its offset |
| IPCData.SerializeSchema | src/core/IPC/IPCServer.cpp:539-552 | the buffer is the header with the count modulo 2^16, then the records in order |
| IPCData.RecordsOfTable | src/core/IPC/IPCClient.cpp:185-198 | records laid end to end are read back as the same list |
| IPCData.BuildFields | src/core/IPC/IPCClient.cpp:195-198 | the client's loop builds the map of the table's records, the last of a name winning |
| IPCData.FieldMapLast | src/core/IPC/IPCClient.cpp:195-198 | under every name the map holds the last record of that name |
| IPCData.FieldMapFaithful | src/core/IPC/IPCClient.cpp:195-198 | with distinct names every field is in the map under its name |
| IPCData.FieldMapKeys | src/core/IPC/IPCClient.cpp:195-198 | the map answers to the names of the records and no others |
| Handshake.StepKeeps | src/core/IPC/IPCClient.cpp:151-211 | every step of either side keeps: bytes under way are those sent and not yet read, and each side has exactly the bytes its phase says |
| Handshake.WhatAClientLearns | src/core/IPC/IPCClient.cpp:175-210 | in every run, however bytes are cut up, a client that finishes has the server's header and the map of its first records |
| Handshake.ServingMeansDone | src/core/IPC/IPCServer.cpp:431-483 | in every run a server that serves has a finished client that it knows to be an MCP client |
| Handshake.NoDeadlock | src/core/IPC/IPCServer.cpp:431-483 | in every reachable state some step is possible until both sides have finished |
| Handshake.HandshakeEnds | src/core/IPC/IPCClient.cpp:151-211 | no run is longer than twice the schema's bytes plus 20 steps |
| Handshake.SucceedsExactlyWithoutShortReads | src/core/IPC/IPCServer.cpp:431-483 | a run that has come to its end succeeded on both sides, with no byte left for the server, if and only if no fixed-size read fell short and the magic number was right |
| Handshake.CanStillSucceed | src/core/IPC/IPCClient.cpp:151-211 | from every state reached without a short read or a failed client some continuation completes without one |
| Handshake.SuccessHappens | src/core/IPC/IPCServer.cpp:431-483 | for every schema with the right magic number some complete run succeeds |
| Handshake.ShortReadsHappen | src/core/IPC/IPCServer.cpp:433-434 | for every schema some complete run has a read of three bytes of four and does not succeed |
| Handshake.CompleteRunsExist | src/core/IPC/IPCServer.cpp:532-552 | for every list of fields there are complete runs without a short read |
| Handshake.SmallSchemaIsShared | src/core/IPC/IPCServer.cpp:532-552 | for at most 300 distinctly named fields a complete run without short reads leaves both channels empty and the client's map equal to the server's schema |
| Handshake.LargeSchemaIsLeftUnread | src/core/IPC/IPCClient.cpp:183-198 | such a run leaves 80 bytes for each field beyond those taken, so none exactly when there are at most 300 |
| Handshake.PayloadSize | src/core/IPC/IPCServer.cpp:433-447 | what the server makes of a greeting of which it reads one to four bytes over a fresh message |
| Handshake.IPCClient.ReadTable | src/core/IPC/IPCClient.cpp:187-192 | the loop gathers the table from pieces of any size, stopping early only at end of file |
| Handshake.IPCClient.Handshake | src/core/IPC/IPCClient.cpp:151-211 | it succeeds if and only if the stream holds acknowledgement, header and table, the peer takes three writes and neither fixed-size read falls short; then exactly these bytes are consumed, the script is written, and header and map are kept; a failure before the last write keeps nothing |
| BlockSchema.SchemaPlaced | src/main_mac.cpp:71-194 | the schema's 184 fields, at every slot index, lie inside the packed block in ascending order, none overlapping the next |
| BlockSchema.SchemaNamed | src/main_mac.cpp:71-194 | no two fields have one name, and each name fits its buffer with its terminator |
| BlockSchema.SchemaIsCarried | src/main_mac.cpp:71-194 | the schema meets every demand the handshake makes: fields fit the wire, at most 300, distinct keys |
| BlockSchema.PhysFieldAt | src/main_mac.cpp:168-181 | where in the schema each field of each physical disk is |
| BlockSchema.BuildIPCDataBlockSchema | src/main_mac.cpp:71-194 | the calls and the four slot loops build that schema, and the header's size is the block's; which name leads where is stated by `Publication` and `PlainMembers` |
| BlockAccess.FieldsApart | src/core/IPC/IPCData.h:93-207 | any two different fields of the schema are inside the block's 36187 bytes, behind the sequence counter, and share none |
| BlockAccess.LastStoreIsRead | src/main_mac.cpp:1022-1180 | for every schema whose fields lie apart, after any sequence of stores, every field holds the bytes last stored to it, or those it had |
| BlockAccess.UnsignedReadBack | src/core/IPC/IPCClient.cpp:254-274 | a stored number reads back modulo the smaller of the field's and the reader's width |
| BlockAccess.Int32ReadBack | src/core/IPC/IPCClient.cpp:276-279 | a stored signed number reads back with its sign |
| BlockAccess.TextReadBack | src/main_mac.cpp:1023-1059 | a terminated text reads back cut to the room before its terminator |
| BlockAccess.UnterminatedReadBack | src/main_mac.cpp:1084-1087 | without the terminator it does so if and only if it leaves room or the last byte is zero already |
| BlockAccess.FieldReader.ReadString | src/core/IPC/IPCClient.cpp:241-251 | nothing without block, field or room; the bytes up to a NUL or the end of the field; astray exactly if the field starts past the block's end |
| BlockAccess.FieldReader.ReadNumeric | src/core/IPC/IPCClient.cpp:254-259 | nothing for an unknown field or one whose wrapped sum is past the end; astray exactly if that test passes and the bytes are not all in the block; else the field's low bytes, zero-extended |
| BlockAccess.FieldReader.ReadInt32 | src/core/IPC/IPCClient.cpp:276-279 | the same, taken as a signed 32-bit number |
| BlockAccess.StraysByWrapping | src/core/IPC/IPCClient.cpp:254-259 | a field read whole passes the test from outside the block if and only if its sum wraps to something within the block's size |
| BlockAccess.InsideNeverStrays | src/core/IPC/IPCClient.cpp:241-259 | a field inside the block passes every test for what it is |
| BlockAccess.FieldReader.ReadBool | src/core/IPC/IPCClient.cpp:281-286 | whether the field's first byte is non-zero |
| BlockAccess.BlockWriter.WriteAdapters | src/main_mac.cpp:1080-1092 | the loop shows the first four adapters that have an address and counts them |
| BlockAccess.ShownAreConnected | src/main_mac.cpp:1081-1082 | the adapters shown are those with an address, in their order, up to four |
| BlockAccess.AdaptersAreTold | src/main_mac.cpp:1080-1092 | each shown adapter is in its own slot, other slots and the rest of the block are untouched, and the counter is right |
| BlockAccess.AdapterReadBack | src/main_mac.cpp:1083-1090 | a slot that starts terminated stays so, its texts read back cut to their room and its speeds modulo 2^64 |
| BlockAccess.AdaptersAreRead | src/main_mac.cpp:1080-1092 | under every published name of every slot a client reads that part of the adapter shown there, and in the slots beyond what it read before |
| BlockAccess.AdapterIsRead | src/main_mac.cpp:1080-1092 | so every adapter shown is read whole, cut to its room, in a slot that was terminated |
| BlockAccess.SlotIsPublished | src/main_mac.cpp:147-158 | what a client finds under a name of a network slot is that part of the slot |
| BlockAccess.BlockWriter.StoreAttributes | src/main_mac.cpp:1120-1159 | a disk's attributes are printed and stored if there are any and their text is shorter than 4096 bytes |
| BlockAccess.StorableFits | src/main_mac.cpp:1155-1157 | they are stored exactly if there are any and their text fits the field with its terminator |
| BlockAccess.AttributesAreTold | src/main_mac.cpp:1154-1159 | for every list, a client reads its number and its text at the schema's two fields if and only if it is non-empty and prints below 4096 bytes, or the slot told it already |
| BlockAccess.NoAttributesTellTheOld | src/main_mac.cpp:1121 | the first failing input: the empty list, after any stored one |
| BlockAccess.LongAttributesTellTheOld | src/main_mac.cpp:1155 | the second: 32 attributes with long names, after any shorter stored list |
| BlockAccess.SameTextSameAttributes | src/main_mac.cpp:1120-1159 | two stored disks read alike if and only if they show the same attributes |
| BlockAccess.EveryFieldIsFound | src/core/IPC/IPCClient.cpp:175-210 | for every schema that fits, after any handshake that finishes, the client finds each definition under its name |
| BlockAccess.WhatIsStoredIsRead | src/core/IPC/IPCClient.cpp:241-286 | and at the place it is told, after any sequence of stores, the bytes the server stored there last |
| BlockAccess.TheBlockIsShared | src/main_mac.cpp:71-194 | the server's own schema and block meet the premises of both |
| Publication.StoreIsRead | src/core/IPC/IPCClient.cpp:241-286 | for every schema whose fields lie apart, a store to the place of an entry is what a client reads under its name, and no other name reads differently |
| Publication.SomeClientIsTold | src/core/IPC/IPCClient.cpp:151-211 | some handshake over the server's own schema finishes, so what is said of clients that have been told is said of some |
| Publication.AdapterIsReadByName | src/main_mac.cpp:147-158 | after any finished handshake a client reads each adapter shown under "net/k/name", "ip", "mac", "type", "speed", "downloadSpeed" and "uploadSpeed": texts cut, speeds modulo 2^64 |
| Publication.DiskIsReadByName | src/main_mac.cpp:168-181 | under "phys/i/attrCount" and "phys/i/attrsJson" it reads the number and the text that the attribute laws speak of |
| Publication.AttributesAreReadByName | src/main_mac.cpp:1120-1159 | stored attributes are counted there, and the text found there, read as JSON, spells each of them by name |
| Publication.DiskNamesLead | src/main_mac.cpp:135-145 | what is stored to a member of a disk's slot is what every told client reads under that member's own name |
| Publication.SensorNamesLead | src/main_mac.cpp:160-166 | so for a sensor's slot |
| Publication.PhysNamesLead | src/main_mac.cpp:168-175 | so for what identifies a physical disk |
| Publication.SmartNamesLead | src/main_mac.cpp:176-181 | so for what SMART says of it |
| PlainMembers.ReadingsAreReadByName | src/main_mac.cpp:1021-1065 | after any finished handshake and one pass of the plain assignments a client reads under each of their 43 names what was delivered for it: texts cut, numbers modulo their width, signed ones with sign, floats bit by bit |
| PlainMembers.BrandIsNeverFilled | src/main_mac.cpp:128 | "gpu/0/brand" is published and reads as it did before |
| PlainMembers.ReadingsAreStored | src/main_mac.cpp:1021-1181 | every assigned value is in its member at the end, and the slots between the two runs of members are untouched |
| PlainMembers.WriteReadings | src/main_mac.cpp:1021-1181 | the assignments in place, one after the other, come to that block |
| Seqlock.StepKeepsInv | src/core/DataStruct/SharedMemoryManager_Windows.cpp:233-477 | every step of writer and reader keeps the link between counter, block and quiescent states |
| Seqlock.KeptCopyIsQuiescent | src/core/IPC/IPCData.h:94 | a copy kept because the counter was even and unchanged is the block at one quiescent moment, given fewer than 2^31 writes in between |
| Seqlock.WrapAroundFools | src/core/IPC/IPCData.h:94 | that bound is needed: with 2^31 writes a torn copy can be kept |
| Seqlock.AtRestEven | src/core/DataStruct/SharedMemoryManager_Windows.cpp:458-476 | between writes the counter is even and twice the number of writes modulo 2^32 |
| Seqlock.SharedBlock.WriteToSharedMemory | src/core/DataStruct/SharedMemoryManager_Windows.cpp:233-477 | each of the three exits leaves the counter even and advanced by 2 modulo 2^32; each cell holds what was last stored to it before the fault, or what it held; its atomic steps are a run of the machine |
| Logger.StepConserves | src/core/Utils/Logger.cpp:32-62 | every step of producers, worker, `Flush` and `Shutdown` keeps written, queued and held lines together equal to the accepted ones |
| Logger.NothingLost | src/core/Utils/Logger.cpp:32-62 | so does every run: no line is lost, invented or doubled |
| Logger.OrderUntilShutdownSeen | src/core/Utils/Logger.cpp:32-48 | without `Flush`, file, worker's batch and queue spell the accepted lines in order until shutdown is first seen |
| Logger.FoundEmptyExits | src/core/Utils/Logger.cpp:48-61 | if the worker then finds the queue empty it exits with the accepted lines in the file, in order |
| Logger.ExitOnlyIfFoundEmpty | src/core/Utils/Logger.cpp:48-54 | without `Flush` it exits in no other case |
| Logger.FoundQueuedNeverExits | src/core/Utils/Logger.cpp:48-52 | once it has found lines queued, every continuation in which nobody flushes keeps it cycling, `Shutdown` waiting and those lines unwritten |
| Logger.FoundQueuedHappens | src/core/Utils/Logger.cpp:48-52 | and that case is reachable |
| Logger.ClosedFileIsComplete | src/core/Utils/Logger.cpp:388-410 | a log closed without `Flush` holds the accepted lines in order but for those accepted after the last drain |
| Logger.AsyncLog.Enqueue | src/core/Utils/Logger.cpp:149-155 | the tail of `WriteLog` is the machine's step: queued while the log is open, dropped otherwise |
| Logger.AsyncLog.WriteBatch | src/core/Utils/Logger.cpp:41-45 | the writing loop is one `Write` a line and then `Written`, and appends the batch to the file |
| Logger.AsyncLog.CheckShutdown | src/core/Utils/Logger.cpp:47-52 | exactly `Check`, and `CheckLocked` if shutdown is set; lines then found queued change places with the empty list, otherwise nothing moves; the loop is left exactly if shutdown is set and the queue empty |
| Logger.AsyncLog.Flush | src/core/Utils/Logger.cpp:371-386 | `FlushTake` and one `FlushWrite` a line, no other step: the whole queue moves to the file |
| HistoryLogger.StepKeepsInv | src/core/history/HistoryLogger.cpp:65-112 | every step keeps: rows are the committed batches less what was deleted since, and handed over, in flight and pending together are what was enqueued, in order |
| HistoryLogger.NothingLost | src/core/history/HistoryLogger.cpp:106-219 | in every run whose commits succeed, rows, batches in flight and pending spell what was enqueued, entirely without deletions and else for all snapshots no older than every cutoff used |
| HistoryLogger.RowsAreWholeBatches | src/core/history/HistoryLogger.cpp:258-335 | in every run, failing statements or not, rows are the committed batches in order, each less the rows older than a later deletion's cutoff |
| HistoryLogger.ShutdownIsComplete | src/core/history/HistoryLogger.cpp:65-95 | after `Shutdown` everything enqueued before it was called has been handed over and, but for deletions by age, is in the rows in order |
| HistoryLogger.WorkerExits | src/core/history/HistoryLogger.cpp:192-219 | once the flag is cleared the worker can always move and every move brings it nearer to its exit |
| HistoryLogger.Database.FlushBatch | src/core/history/HistoryLogger.cpp:258-307 | all of a batch reaches the table or none of it, whichever statement fails, and no transaction stays open |
| HistoryLogger.Database.RotateIfNeeded | src/core/history/HistoryLogger.cpp:309-335 | of the rows exactly those no older than the cutoff stay, each as often as before and in order; a failing statement changes nothing |
| HistoryLogger.RecentCounts | src/core/history/HistoryLogger.cpp:320 | for every table and cutoff a deletion leaves no older row, and each other row as often as it was there |
| HistoryLogger.RecentSelects | src/core/history/HistoryLogger.cpp:320 | what is left is the table read at rising places, those of the rows no older than the cutoff |
| HistoryLogger.HistoryLogger.WriteBatch | src/core/history/HistoryLogger.cpp:106-112 | appending to the pending buffer is the machine's step |
| HistoryLogger.HistoryLogger.FlushPending | src/core/history/HistoryLogger.cpp:196-217 | one pass of the worker, deletion included, is the machine's three steps |
| HistoryLogger.HistoryLogger.FlushRemaining | src/core/history/HistoryLogger.cpp:81-88 | so is what `Shutdown` does after joining the worker |
| Coordinator.StepKeepsInv | src/core/coordinator/ModuleCoordinator_io.cpp:18-37 | every step of a loop and its callbacks keeps the link between events, flags, tests and collections |
| Coordinator.NeverSleepsOverAnEvent | src/core/coordinator/ModuleCoordinator_cpu.cpp:159-181 | a loop that sleeps has tested every flag since this round's collection began, and has begun a collection after every event raised before that test of its flag, for any number of short-circuited flags |
| Coordinator.SleepsAfterItsTests | src/core/coordinator/ModuleCoordinator_cpu.cpp:175-178 | going to sleep takes a test of every flag in this round, events or none |
| Coordinator.SleptOverAtMostOnce | src/core/coordinator/ModuleCoordinator_cpu.cpp:159-181 | when a loop has woken and sleeps again, every event from before is covered |
| Coordinator.LateEventStaysRaised | src/core/coordinator/ModuleCoordinator_io.cpp:56-100 | an event not covered came after this round's test of its flag, and the flag is still up |
| Coordinator.CollectionCoversAll | src/core/coordinator/ModuleCoordinator_io.cpp:18-37 | beginning a collection covers every event so far |
| Coordinator.SkipsOnlyForAnEvent | src/core/coordinator/ModuleCoordinator_cpu.cpp:175-178 | a sleep is skipped only because of an event since that flag was last tested |
| Coordinator.DirtyFlags.NoneRaised | src/core/coordinator/ModuleCoordinator_cpu.cpp:175-178 | it sleeps, changing nothing, exactly if no flag is raised; otherwise the first raised flag is lowered and no other touched; its steps are tests only and a run of the machine |
| MCPServer.LateCallAdmitted | src/core/MCP/MCPServer.cpp:96-104 | a call more than 1000 ms after the window's start is admitted and starts a window |
| MCPServer.IntervalBound | src/core/MCP/MCPServer.cpp:96-104 | any interval of L ms has at most 30 * (L / 1001 + 2) admitted calls, for every non-decreasing sequence of call times |
| MCPServer.SixtyPerSecond | src/core/MCP/MCPServer.cpp:96-104 | hence at most 60 in any second |
| MCPServer.SixtyIsMet | src/core/MCP/MCPServer.cpp:96-104 | and 60 can happen |
| MCPServer.MCPServer.CheckRateLimit | src/core/MCP/MCPServer.cpp:96-104 | 1001 ms or more after the window's start a call is admitted and starts a window; before that it is counted and admitted exactly if fewer than 30 were counted; both are the window's step |
| MCPServer.MCPServer.HandleToolsCall | src/core/MCP/MCPServer.cpp:148-170 | refused before initialization without counting; an admitted call is answered by the first tool of its name and counts even if there is none |
| SmartReader.UsedAreSlots | src/core/disk/SmartReader.cpp:268-277 | every decoded attribute is a slot of the sector whose id is neither 0 nor 255, with a 48-bit raw value |
| SmartReader.UsedHasAll | src/core/disk/SmartReader.cpp:268-277 | every such slot is decoded, right behind those before it in the sector |
| SmartReader.ReadRaw | src/core/disk/SmartReader.cpp:275-277 | the six shifted bytes are the little-endian number |
| SmartReader.ParseAttributes | src/core/disk/SmartReader.cpp:265-334 | the attributes are the first 32 used slots in order, each decoded from the bytes at 0, 1, 3, 4 and 5 to 10 of its slot, every index in bounds; the health is the least that any rule asks for: 95, 80, 90, 85 or a remaining life |
| SmartReader.LeastIsAsked | src/core/disk/SmartReader.cpp:301-330 | the least cap is the least value the health rules ask for, or 100 |
| SmartReader.HealthIsLeastCap | src/core/disk/SmartReader.cpp:301-330 | health is the least of 100 and the attributes' caps, and nothing else is |
| SmartReader.HealthIgnoresOrder | src/core/disk/SmartReader.cpp:301-330 | the order of the attributes does not matter |
| SmartReader.HealthFallsWithRaw | src/core/disk/SmartReader.cpp:301-312 | health never rises when raw counts rise |
| SmartJson.DecimalPrefixFree | src/main_mac.cpp:1145-1148 | a printed number ends where the digits end |
| SmartJson.CodesPrefixFree | src/main_mac.cpp:1127-1144 | a printed name ends at the first quote no code covers: escapes and UTF-8 forms are prefix-free |
| SmartJson.PrintInjective | src/main_mac.cpp:1120-1153 | two lists print alike if and only if they show the same ids, values and cut names |
| SmartJson.PrintNoNul | src/main_mac.cpp:1120-1153 | the text holds no NUL |
| SmartJsonLaws.PrintLegalIff | src/main_mac.cpp:1120-1153 | the text is legal JSON (RFC 8259) if and only if no shown name or description holds a control character |
| SmartJsonLaws.PrintUtf8Iff | src/main_mac.cpp:1128-1144 | it is legal UTF-8 if and only if none holds a surrogate, paired or not |
| SmartJsonReads.AttributesReadBack | AvaloniaUI/Services/Hardware/IPC/IPCSystemInfoMapper.cs:232-242 | for every legal text and every k, a JSON reader finds under "id", "cur", "worst" and "raw" of element k the k-th attribute's numbers, and under "name" and "desc" its texts cut to 63 and 127 units, unit by unit |
| SmartJsonReads.AttributesAreFound | src/main_mac.cpp:1122-1153 | element k has exactly the six members, in order, and there is no element behind the last attribute |
| SmartJsonReads.CodesSpell | src/main_mac.cpp:1128-1144 | every text, surrogates and control characters included, is spelled back unit by unit: escapes undone, the rest read as UTF-8 |
| SmartJson.DecimalNatural | src/main_mac.cpp:1145-1148 | a printed number is the decimal number |
| SmartJson.ToUtf8 | src/main_mac.cpp:1127-1144 | the conversion loop prints the units up to a NUL or the limit, code by code |
| SmartJson.PrintAttributes | src/main_mac.cpp:1122-1153 | the printing loop produces that text, which is read back attribute by attribute |
| StorageViewModel.KeptOrder | AvaloniaUI/ViewModels/StorageViewModel.cs:74-79 | views that stay keep their order |
| StorageViewModel.PageIs | AvaloniaUI/ViewModels/StorageViewModel.cs:57-79 | after an update the page shows first the serial numbers it had that the update has, in their old order, each with the last disk of its number, then the update's other disks in the update's order |
| StorageViewModel.MatchedExactly | AvaloniaUI/ViewModels/StorageViewModel.cs:96-107 | a disk's partitions are the volumes whose drive letter it names and no others |
| StorageViewModel.MatchedInOrder | AvaloniaUI/ViewModels/StorageViewModel.cs:98-107 | a disk's partitions stand in the order of its letters |
| StorageViewModel.LettersShared | AvaloniaUI/ViewModels/StorageViewModel.cs:96-97 | the letters are apart if and only if no two lettered volumes share one |
| StorageViewModel.StaysUnique | AvaloniaUI/ViewModels/StorageViewModel.cs:57-72 | serial numbers are apart after an update if and only if those of the new disks are |
| StorageViewModel.StorageViewModel.BySerial | AvaloniaUI/ViewModels/StorageViewModel.cs:57 | the index throws exactly if two views have one serial number |
| StorageViewModel.StorageViewModel.ByLetter | AvaloniaUI/ViewModels/StorageViewModel.cs:96-97 | the index throws exactly if two lettered volumes share a letter |
| StorageViewModel.StorageViewModel.UpdateOrAdd | AvaloniaUI/ViewModels/StorageViewModel.cs:60-72 | known views show the last disk of their serial number, unknown disks get new views at the end in input order |
| StorageViewModel.StorageViewModel.RemoveDead | AvaloniaUI/ViewModels/StorageViewModel.cs:74-79 | removing from the end keeps exactly the live views, in order |
| StorageViewModel.StorageViewModel.MapVolumes | AvaloniaUI/ViewModels/StorageViewModel.cs:85-107 | on macOS the first disk gets all volumes in order and the others none; elsewhere each gets those of its letters; it throws exactly if, elsewhere, two lettered volumes share a letter |
| StorageViewModel.StorageViewModel.Reconcile | AvaloniaUI/ViewModels/StorageViewModel.cs:57-79 | a view stays exactly if the update has its serial number, as the same object in the same order with the last disk of that number; new views follow, the rest go |
| StorageViewModel.StorageViewModel.BuildOrUpdatePhysicalDisks | AvaloniaUI/ViewModels/StorageViewModel.cs:53-116 | the whole update; with two views of one serial number nothing changes, and that state is entered exactly if an update brings new disks with equal serial numbers |

## Left out

- The Windows branches of the converters and the Windows pipe server: calls into the system, and a server that never calls its client handler.
- Loading, saving and `Validate` of the configuration, and the string and boolean getters and setters: the parser's concern, or one-line cases of what is modelled.
- ConfigManager.ConfigManager.SetNested: the tree is a value and the moving pointer a path into it, so sharing of nodes between trees is not modelled.
- ConfigManager.ConfigManager.AppendToArray: the same.
- Handshake.IPCClient.Handshake: a peer's writes are bytes that arrive later in any pieces; the socket's buffer limit, signals and the error texts are not modelled.
- Handshake.SmallSchemaIsShared: the schema does not change while a client is shaking hands; `UpdateSchema` and `NotifyConfigChange` would put further bytes on the same socket.
- Handshake.WhatAClientLearns: a field's name is what its 32 bytes hold up to a NUL; a name without one would run into the units.
- The server's keep-alive loop, its list of clients and the broadcast of new schemas.
- BlockAccess.FieldReader.ReadString: a read outside the block has no value in the model, only the answer that it strays; so for the numbers.
- BlockAccess.FieldReader.ReadNumeric: a Float32 field read as Float64 gets zero-extended bits and is not a number anyone stored, so no claim is made.
- The model, serial and interface texts of physical disks: they are copied without a terminator after the last character, so an older, longer text shows through.
- PlainMembers.WriteReadings: the loops over disks, sensors and physical disks that run between the plain assignments (`src/main_mac.cpp:1066-1119`) are not modelled but for adapters and attributes; that their members are read under their own names is.
- Seqlock.KeptCopyIsQuiescent: no reader in the repository follows the contract yet; a crash inside a write, an abandoned mutex and weaker memory orders are not modelled, nor the fields `src/main.cpp:1729-1742` writes outside the lock.
- Logger: the in-memory log of the text interface, the console and the start-up.
- HistoryLogger.HistoryLogger.FlushPending: whether an hour has passed and what the cutoff is are parameters; SQLite is a table with transactions whose statements fail as they like.
- Coordinator: what a collection collects, the pace of `SleepFor`, and the loops without a flag.
- MCPServer.MCPServer.CheckRateLimit: the call counter of one window is assumed below 2^31 and the clock never to run backwards.
- The other requests of the MCP server: dispatch on a method's name.
- SmartReader.ParseAttributes: temperature, power-on hours, disk type and the texts of the attributes are side results of the same loop.
- Float values are opaque bytes or real numbers; rounding is not modelled.
- Hardware queries, user interface, formatting and the chart history.
