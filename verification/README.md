# Verified model of the usage monitor

The repository is a small system in two halves: a Go daemon that polls AI usage providers, ranks them, reads local
transcripts and serves the results, and C++ firmware for a desk device that shows them and is set up over Bluetooth.
This project models the parts where the two halves must agree or where state is shared, and proves what those parts
promise. One module stands for one component; a module named after another with a suffix holds its theorems.

- **Provisioning, both ends.** `Crc32`, `Provision`, `BleFormat`, `BleDecoder` (the firmware's decoder as an object
  over a 512-byte array), `BleMachine` (its transitions on values), `BleRuns` (whole runs), `BleTlv` (payloads as
  record lists), `BleLifecycle` (refusals, the record's use and the wipe), `BleWire` (the daemon's encoder and
  splitter), `BleDelivery` (the two together), `BleExample` (the documented bytes).
- **DNS messages.** `DnsName` and `DnsMessage`: printer, parser, compressed names (sections 4.1 and 4.1.4 of RFC 1035).
  `DnsReprint`: printing what was parsed. `DnsExample`: one message byte for byte.
- **Settings.** `YamlText`, `YamlScalar`, `YamlParse`, `YamlConfig` and `YamlRestart`: the printer and parser of the
  settings file; `YamlTop` and `YamlExample`: what files say line by line. `ProviderDefaults` and `SettingsInEffect`:
  what a settings change and a restart leave in effect.
- **Polling.** `SchedPoll` (goroutines as a transition system over shared maps and shared row arrays), `SchedRuns` (a
  poll in closed form, and the scheduler as an object), `SchedSafety` (every run of polls), `SchedOrder` (display
  order), `SchedShown` (what a poll puts on display).
- **Device setup channel.** `SetupScan`, `SetupChannel` (the object), `SetupSafety` (every interleaving with late
  goroutines) and `SetupHistory` (what is shown, told from the actions).
- **Transcript statistics.** `StatsFold`, `StatsResume`, `StatsTotals`, `StatsWindows`.
- **Lists and layout.** `Portal` and `PortalTopK` (the streamed Wi-Fi list), `Advise`, `AdviseRank` and `AdviseMeaning`
  (ranking), `Pages` (the device's pages), `RateLimiter`. `Bytes` and `Sorting` hold what several modules share.

State that the source updates in place is a class or an array here, and each of its methods is proved to compute a
function of the old state; the theorems are about those functions. Go strings and C++ buffers of the wire formats are
byte sequences, text files and identifiers are `string`, times are integers (nanoseconds or seconds, as in the source),
costs and fractions are real numbers.

Where the code and its own documentation disagree, the model follows the code:

- `internal/mdns/wire.go:258-268` says strictly backward pointers rule out loops; they do not
  (`DnsName.BackwardPointersCanLoop`), the jump counter does.
- `internal/bleprov/wire.go:282-285` guards against a stream that is too large, and
  `firmware/src/usage/bleprov.cpp:360-369` against a record that is not joinable; neither can happen
  (`BleWire.Encode`, `BleFormat.PayloadVerdict`).
- `internal/config/serialize.go:13-15` and `internal/config/defaults.go:124-128` promise files the parser accepts and
  settings that round-trip; both fail for an empty plan block (`ProviderDefaults.EmptyPlanIsRefused`), the first also
  for alerts that hold only the legacy key (`ProviderDefaults.LegacyAlertIsRefused`) and the second for a string that
  must be quoted while it holds a quote or a backslash. `YamlRestart.SaveThenLoad` and `YamlRestart.RoundTripIff` give
  the exact conditions. The comments there count five built-in providers; there are six.
- `internal/api/server.go:682-778` keeps in effect what a settings change leaves out, but replaces the file by one
  without it, so that the next start falls back to the default; so does a threshold that only the legacy key seeds
  (`SettingsInEffect.LegacySeedIsForgotten`). A device token from the file cannot be given at all and is always lost
  (`SettingsInEffect.TokenIsForgotten`). `SettingsInEffect.RestartKeepsIff` says exactly when nothing is
  lost.
- `internal/api/setup.go:941-970` orders a scan to offer the nearest device to set up, but only after it has kept the
  first 16 (`SetupScan.CrowdHidesTheOne`, and `SetupScan.NearestIff` for the exact condition).
- `internal/stats/scan.go:673-689` stores the result of the last read only, so the report of a longer chain of resumed
  scans, and even a cache hit after one, misses what was read before (`StatsResume.ChainAgreesIff`,
  `StatsResume.TwoResumesLoseTheFirst`).
- `internal/advise/advise.go:353-356` promises the time to the earliest reset, or 0 if that is past; an exhausted window
  still to reset that stands before one whose reset is past gives its own time (`Advise.LaterPastIsMissed`, and
  `Advise.BlockedTimeIff` for the exact condition).
- `internal/api/server.go:168` promises at most the maximum in a window. The limiter's own windows keep that exactly
  when the maximum is at least 1 (`RateLimiter.OwnPromiseIff`). With a window of positive length, every stretch of that
  length keeps it exactly when the maximum is 1 (`RateLimiter.SlidingPromiseIff`), and for every maximum from 1 some run
  reaches one less than twice as many (`RateLimiter.BoundIsReached`).
- `firmware/src/usage/portal.h:115-118` promises one entry for each name; a name longer than the 32 bytes a radio
  reports would break it (`PortalTopK.OnceIff`).

## Model

| member | source | states |
|---|---|---|
| `Crc32.ComputeCrc32` | firmware/src/usage/bleprov.cpp:66-76 | the branch-free bitwise loop over a buffer computes the checksum of section 8 of RFC 1952, defined by its 256-entry table |
| `Crc32.UpdateIsEightShifts` | firmware/src/usage/bleprov.cpp:66-76 | one table step of the standard is eight shift-and-mask steps of the register with the byte mixed in |
| `Crc32.UpdateInjectiveInState` | firmware/src/usage/bleprov.cpp:66-76 | two different register values stay different after any byte |
| `Crc32.UpdateInjectiveInByte` | firmware/src/usage/bleprov.cpp:66-76 | two different bytes fed to one register value leave different values |
| `Crc32.ChecksumDetectsOneByte` | firmware/src/usage/bleprov.cpp:66-76 | changing any one byte of any data changes its checksum |
| `Crc32.CheckValue` | firmware/src/usage/bleprov.cpp:66-76 | the checksum of the text 123456789 is 0xCBF43926, the published value both test suites hold their end to |
| `Crc32.Le32RoundTrip` | internal/bleprov/wire.go:294-295 | the four checksum bytes, least significant first, read back as the checksum |
| `Provision.Record.Clear` | firmware/src/usage/provision.cpp:62-65 | in place, every byte of every string becomes zero, also behind its terminator, and the port 8765 |
| `Provision.Record.Sanitize` | firmware/src/usage/provision.cpp:70-87 | whatever the five buffers hold, each becomes a terminated string cut at its capacity and at its first control character, port 0 becomes 8765, and the result is true exactly when a buffer was not terminated or a value changed |
| `Provision.SanitizeField` | firmware/src/usage/provision.cpp:29-56 | one buffer repaired in place, contents and verdict |
| `Provision.SanitizeCleans` | firmware/src/usage/provision.cpp:70-87 | repair always yields a clean record and changes nothing exactly when the record already was clean |
| `Provision.SanitizedMeaning` | firmware/src/usage/provision.cpp:70-87 | each field becomes the longest beginning that fits its 32, 63, 63, 64 or 63 bytes and holds no control character, and port 0 becomes 8765 |
| `Provision.RepairedUnchangedIff` | firmware/src/usage/provision.cpp:29-56 | a field is unchanged exactly when it fits and holds no control character |
| `Provision.CStringAt` | firmware/src/usage/provision.cpp:19-25 | the first NUL decides what string a buffer holds |
| `BleFormat.AcceptedIffSound` | firmware/src/usage/bleprov.cpp:237-370 | a receive buffer is accepted exactly when its declared part is a correctly framed stream whose payload parses, with nothing else inspected |
| `BleFormat.AcceptedIsFrame` | firmware/src/usage/bleprov.cpp:237-260 | an accepted stream is the frame of its payload, checksum included |
| `BleFormat.ParseFrame` | firmware/src/usage/bleprov.cpp:237-260 | a framed payload at the front of the buffer is judged as that payload, whatever follows |
| `BleFormat.TlvKeepsClean` | firmware/src/usage/bleprov.cpp:262-369 | a record the field rules let through is one the final repair would leave alone |
| `BleFormat.PayloadVerdict` | firmware/src/usage/bleprov.cpp:360-369 | the closing repair and joinable check change nothing and never refuse: the error for an unjoinable record is unreachable |
| `BleDecoder.Decoder.constructor` | firmware/src/usage/bleprov.cpp:80-91 | a new decoder is idle over a zeroed 512-byte buffer and a record without a byte in it |
| `BleDecoder.Decoder.Reset` | firmware/src/usage/bleprov.cpp:82-91 | buffer zeroed, every byte of the record wiped, counters and error back to their start |
| `BleDecoder.Decoder.Scrub` | firmware/src/usage/bleprov.cpp:96-102 | the buffer is zeroed, every byte of the record wiped and the counters are 0, while state, error and version stay |
| `BleDecoder.Decoder.Refuse` | firmware/src/usage/bleprov.cpp:107-117 | the first error is kept, later ones are returned but not stored, and only the buffer and its counters are wiped |
| `BleDecoder.Decoder.OnControl` | firmware/src/usage/bleprov.cpp:119-184 | the whole new state and the returned error for every control write, as a function of the old state and the bytes; after an accepted BEGIN or ABORT no byte of an older credential is left in the record |
| `BleDecoder.Decoder.OnBegin` | firmware/src/usage/bleprov.cpp:130-155 | BEGIN accepts exactly the legal lengths and starts over, else refuses |
| `BleDecoder.Decoder.OnCommit` | firmware/src/usage/bleprov.cpp:157-176 | COMMIT parses a complete stream into the record or refuses, with every field of the new state; it is ready exactly when nothing was refused, and a stream refused by the parser leaves no byte in the record |
| `BleDecoder.Decoder.OnChunk` | firmware/src/usage/bleprov.cpp:186-211 | a data write in sequence and within the declared length is appended and counted modulo 256, anything else refused |
| `BleDecoder.Decoder.Parse` | firmware/src/usage/bleprov.cpp:237-370 | the parser over the buffer array fills the record exactly as the payload says, or names the first fault |
| `BleDecoder.Decoder.ParseRecords` | firmware/src/usage/bleprov.cpp:262-358 | the record loop with its table of seen tags agrees with reading the payload record by record |
| `BleDecoder.Decoder.Store` | firmware/src/usage/bleprov.cpp:281-352 | one mandatory field: every length, character and value rule, and what it stores |
| `BleDecoder.Decoder.MarkFailed` | firmware/src/usage/bleprov.cpp:230-233 | the hardware layer's verdict replaces state and error, nothing else |
| `BleDecoder.Decoder.EncodeStatus` | firmware/src/usage/bleprov.cpp:374-385 | what the daemon parses from the six bytes is this decoder's state, error, sequence byte and count |
| `BleDecoder.Decoder.MarkApplying` | firmware/src/usage/bleprov.cpp:213-217 | a committed record is marked as being applied, in any other state nothing happens |
| `BleDecoder.Decoder.MarkApplied` | firmware/src/usage/bleprov.cpp:219-224 | a committed record is marked as applied, in any other state nothing happens |
| `BleRuns.ReceivingIff` | firmware/src/usage/bleprov.cpp:119-211 | after any calls with any bytes, the decoder is receiving exactly when they end in an accepted BEGIN and writes numbered 0, 1, 2, ... modulo 256 that fit |
| `BleRuns.TransferView` | firmware/src/usage/bleprov.cpp:119-211 | during such a transfer the buffer is the written data followed by zeros, whatever came before the BEGIN |
| `BleRuns.ReadyIff` | firmware/src/usage/bleprov.cpp:82-233 | after any writes, the decoder is ready exactly when they end in a complete transfer of a sound stream and a COMMIT, and then holds that stream's record |
| `BleRuns.CommitVerdict` | firmware/src/usage/bleprov.cpp:157-176 | COMMIT during a transfer: an incomplete stream fails as truncated; a complete one makes the decoder ready exactly when it is sound, and else fails with the parser's fault, the record cleared and the buffer zeroed |
| `BleRuns.OnlyDeclaredCounts` | firmware/src/usage/bleprov.cpp:237-370 | the verdict on a stream does not depend on what lies behind its declared length in the buffer |
| `BleRuns.CommitsVerdict` | firmware/src/usage/bleprov.cpp:157-176 | a complete transfer followed by COMMIT, from every prior state: ready with the stream's record, or failed with the stream's fault, the record cleared and the buffer zeroed |
| `BleRuns.FirstErrorRule` | firmware/src/usage/bleprov.cpp:107-117 | whatever is called, the error held is the first failure since the last restart, unless the hardware layer reported one of its own |
| `BleRuns.OnlyCommitMakesReady` | firmware/src/usage/bleprov.cpp:82-233 | no call but COMMIT can make the decoder ready |
| `BleLifecycle.BeginRefusals` | firmware/src/usage/bleprov.cpp:130-155 | a BEGIN for n bytes is too short exactly below 7, too large exactly above 512, and accepted otherwise |
| `BleLifecycle.ControlRefusals` | firmware/src/usage/bleprov.cpp:119-184 | for every control write, exactly when each fault that is not the stream's own is answered |
| `BleLifecycle.ChunkRefusals` | firmware/src/usage/bleprov.cpp:186-211 | during a transfer, exactly when a data write is malformed, out of order against the number of writes so far modulo 256, or more than was declared |
| `BleLifecycle.ChunkOutside` | firmware/src/usage/bleprov.cpp:186-189 | a data write is answered as not begun exactly outside a transfer |
| `BleLifecycle.RefusedWrite` | firmware/src/usage/bleprov.cpp:107-117 | any refused write leaves a zeroed buffer, the first fault, and the record as it was unless it was being filled from a complete stream |
| `BleLifecycle.StreamFaults` | firmware/src/usage/bleprov.cpp:237-260 | a complete stream is refused for its version, then its length, then its checksum, each exactly when that is wrong, and else judged as its payload |
| `BleLifecycle.ScrubbedRun` | firmware/src/usage/bleprov.cpp:96-102 | any calls that end in a scrub leave a zeroed buffer, a cleared record and counters of 0, and the state, error and version there were before it |
| `BleLifecycle.ScrubLasts` | firmware/src/usage/bleprov.cpp:82-233 | after a scrub, a reset or an ABORT, whatever is called, buffer and record stay empty until the next BEGIN is accepted |
| `BleLifecycle.UseMeaning` | firmware/src/usage/bleprov.cpp:213-224 | what marks and wipes make of a committed record: its state, and its fields unless a wipe was among them |
| `BleLifecycle.AppliedIff` | firmware/src/usage/bleprov.cpp:213-224 | over all calls, a record is applied exactly when it was committed and then marked so with nothing but marks and wipes between, and being applied exactly when it was marked that far only |
| `BleTlv.ParseFlattened` | firmware/src/usage/bleprov.cpp:262-358 | parsing bytes that begin with whole records is parsing the list of records, then the rest |
| `BleTlv.Unflatten` | firmware/src/usage/bleprov.cpp:262-358 | every payload that parses is a list of whole records |
| `BleTlv.FieldFaults` | firmware/src/usage/bleprov.cpp:281-352 | each fault of a mandatory field and exactly when it is answered, a control character first |
| `BleTlv.FirstFault` | firmware/src/usage/bleprov.cpp:262-358 | behind any legal records, the first one that cannot be taken decides: an unknown tag, a mandatory one met before, or its own fault |
| `BleTlv.CutRecord` | firmware/src/usage/bleprov.cpp:264-270 | behind any legal records, bytes that are no whole record are malformed |
| `BleTlv.NoNetworkName` | firmware/src/usage/bleprov.cpp:360-362 | legal records are accepted exactly when a network name is among them, and else refused for that |
| `BleTlv.ParseListMeaning` | firmware/src/usage/bleprov.cpp:262-369 | a list of records is accepted exactly when each is legal and no mandatory tag repeats, and then the record is the one the list describes |
| `BleTlv.DescribesUnique` | firmware/src/usage/bleprov.cpp:262-369 | two lists with the same mandatory records describe at most one record |
| `BleTlv.OrderIrrelevant` | firmware/src/usage/bleprov.cpp:262-369 | two payloads with the same mandatory records, in any order and with any optional ones, get the same verdict and record |
| `BleTlv.PermutationAccepted` | firmware/src/usage/bleprov.cpp:262-369 | every reordering of the records of an accepted payload is accepted with the same record |
| `BleTlv.OptionalRecordsChangeNothing` | firmware/src/usage/bleprov.cpp:272-279 | records tagged 0x80 or above, inserted at any record boundary of any payload, change neither verdict nor record |
| `BleWire.Encode` | internal/bleprov/wire.go:265-297 | a valid record becomes the framed payload of at most 306 bytes, so the too-large error cannot occur; an invalid one is reported as Validate does |
| `BleWire.Chunks` | internal/bleprov/wire.go:365-386 | the writes carry exactly the stream, in order, in full-size pieces but for the last, with sequence bytes counting modulo 256; refused exactly for an empty stream or a size below 1 |
| `BleWire.CodesInvert` | internal/bleprov/wire.go:390-455 | the state and error numbers both ends use are one-to-one |
| `BleWire.StatusRoundTrip` | internal/bleprov/wire.go:444-455 | what the daemon reads from the device's status bytes is the state, error, sequence and count published |
| `BleExample.WorkedExample` | internal/bleprov/wire_test.go:12-104 | the documented record is valid, its stream is the documented bytes up to the checksum, BEGIN announces 82 bytes and the status after the COMMIT is the documented one |
| `BleDelivery.Delivery` | internal/bleprov/wire.go:187-386 | end to end: for every record the daemon accepts, every chunk size from 1 and every prior decoder state, BEGIN, the chunks and COMMIT leave the decoder ready with exactly that record, port 0 read as 8765 |
| `BleDelivery.BeginAgrees` | internal/bleprov/wire.go:312-320 | the daemon announces a stream exactly when the device would take it, in the four bytes it takes |
| `BleDelivery.DeviceError` | internal/bleprov/central.go:700-709 | from the published status the daemon reads a refusal exactly when the decoder has failed, and then its error code |
| `BleDelivery.SendStream` | internal/bleprov/central.go:458-488 | BEGIN and the numbered pieces of a stream: finished exactly when not cancelled before one of them, the decoder then holding all of it, and wiped otherwise |
| `BleDelivery.Send` | internal/bleprov/central.go:337-492 | the daemon's sequence against the decoder object, over a link that loses nothing: an invalid record or a capacity too small leaves the decoder untouched; a run cancelled before any of its writes is aborted and leaves no byte behind; every other run is committed and the record arrives |
| `BleDelivery.ValidatorsAgree` | internal/bleprov/wire.go:187-249 | for fields that fit a length byte and encodings that fit the buffer, the daemon accepts a record exactly when the device accepts its encoding |
| `BleDelivery.DeviceVerdict` | firmware/src/usage/bleprov.cpp:262-369 | the device's verdict on the daemon's payload is the first field at fault in the payload's order |
| `BleDelivery.RefusalCodesAgreeIff` | internal/bleprov/wire.go:187-249 | the refusal codes of the two ends are equal exactly when the first refused field is not both over-long and unprintable, and with an empty SSID exactly when nothing else is at fault |
| `BleDelivery.OneByteOff` | firmware/src/usage/bleprov.cpp:243-255 | a frame with one byte changed is not a frame of anything of that length |
| `BleDelivery.DamagedNeverCommits` | firmware/src/usage/bleprov.cpp:157-176 | change any one byte of an accepted stream, keep the declared length, split it any way: the COMMIT is refused |
| `BleDelivery.DroppedNeverCommits` | firmware/src/usage/bleprov.cpp:186-211 | drop any non-empty set of a stream's writes: the COMMIT is refused, from every prior state |
| `BleDelivery.ReceivedBound` | firmware/src/usage/bleprov.cpp:186-211 | the byte count never exceeds the data written since BEGIN |
| `DnsName.AppendName` | internal/mdns/wire.go:110-128 | writes a name in label form, or reports an empty or over-long label or name, exactly as the split of the name decides |
| `DnsName.NameErrors` | internal/mdns/wire.go:110-129 | which error a name is refused with: a bad label goes first, then the length |
| `DnsName.DecodeName` | internal/mdns/wire.go:230-287 | terminates on every message and offset by the measure jumps left, then bytes left; on success the next offset is past the start and within the message and the name is at most 255 bytes |
| `DnsName.DecodeMeaning` | internal/mdns/wire.go:230-287 | every name has a reading, told from its bytes: parts in label form, each but the last followed by a two-byte pointer to the next; decoding yields the labels spelled and the offset past the first pointer, or the error that reading ends with |
| `DnsName.BackwardPointersCanLoop` | internal/mdns/wire.go:258-268 | a message on which following only strictly backward pointers returns to the same pointer for ever: the jump counter, not the pointer rule, bounds the loop |
| `DnsName.NameRoundTrip` | internal/mdns/wire.go:110-287 | a name written in label form anywhere in a message reads back fully qualified |
| `DnsName.CompressedRoundTrip` | internal/mdns/wire.go:230-287 | legal labels, a pointer and the rest of the name where it points, anywhere before: the name of at most 255 bytes reads back whole and the record goes on behind the pointer |
| `DnsMessage.PackRdata` | internal/mdns/wire.go:131-171 | the payload of each record type, or its error |
| `DnsParse.MappedIff` | internal/mdns/wire.go:131-141 | an IPv4 address is given as its four bytes or as ten zeros, two bytes of ones and the four |
| `DnsMessage.AppendRecord` | internal/mdns/wire.go:173-192 | a record appended whole, with its length field cast to 16 bits |
| `DnsMessage.Pack` | internal/mdns/wire.go:196-223 | header, questions and three record sections in order, or the first error |
| `DnsMessage.UnpackRdata` | internal/mdns/wire.go:290-336 | the typed fields of a payload, or the error, for any bytes and any claimed length |
| `DnsMessage.UnpackRecord` | internal/mdns/wire.go:338-360 | one record and the offset after it, or the error |
| `DnsMessage.Unpack` | internal/mdns/wire.go:364-409 | total on every datagram: the message its sections spell, or an error |
| `DnsParse.RdataIff` | internal/mdns/wire.go:290-336 | for any bytes, a payload is read as a record exactly when it carries that record: four address bytes, a name, three numbers and a name, strings that fill it exactly, or anything |
| `DnsParse.RdataErrors` | internal/mdns/wire.go:290-336 | which error a payload is refused with |
| `DnsParse.RecordIff` | internal/mdns/wire.go:338-362 | a record is read exactly when the bytes say it: name, type, class, time to live, payload length and payload |
| `DnsParse.RecordErrors` | internal/mdns/wire.go:338-362 | a record is refused for its name, for being cut short, or for its payload |
| `DnsParse.SectionErrors` | internal/mdns/wire.go:364-409 | a section is refused for its first record that is |
| `DnsParse.MessageIff` | internal/mdns/wire.go:364-409 | any datagram is parsed as a message exactly when its bytes say that message, header, questions and the three sections in order; what lies behind does not matter |
| `DnsParse.MessageErrors` | internal/mdns/wire.go:364-409 | a datagram shorter than its header is cut short, any other is refused for an item that is |
| `DnsMessage.MessageRoundTrip` | internal/mdns/wire.go:110-409 | every message that can be printed, and whose counts and payloads fit their 16-bit fields, reads back as its normal form: qualified names, four-byte addresses, one empty string for an empty TXT list |
| `DnsMessage.CanonicalRoundTrip` | internal/mdns/wire.go:110-409 | every canonical message that can be sent comes back unchanged |
| `DnsMessage.EncodesIff` | internal/mdns/wire.go:131-223 | printing succeeds exactly when every name can be written and every payload is one its type allows |
| `DnsMessage.NormalUnchangedIff` | internal/mdns/wire.go:131-223 | a record equals its normal form exactly when it is canonical |
| `DnsExample.ExampleBytes` | internal/mdns/wire.go:131-223 | a message with a question and a record of each type is these bytes, in this order |
| `DnsReprint.ParsedNameIff` | internal/mdns/wire.go:110-287 | a name the parser returned can be printed exactly when it is the root or at most 254 bytes of text without a dot in front or two next to each other |
| `DnsReprint.DotLabelIsNotPrinted` | internal/mdns/wire.go:110-287 | a label of one dot is parsed and cannot be printed |
| `DnsReprint.ReprintIff` | internal/mdns/wire.go:110-409 | every message that was parsed can be printed again exactly when all its names can; it is then parsed as its normal form, and as the same message exactly when no TXT record came without a string |
| `YamlText.StripInlineComment` | internal/config/yaml.go:209-220 | the line up to the first '#' outside double quotes |
| `YamlText.CommentAtMeaning` | internal/config/yaml.go:209-220 | that is the first '#' that an even number of double quotes precedes |
| `YamlText.LexYaml` | internal/config/yaml.go:184-205 | the lines that carry something, with their indentation, or the error for a tab |
| `YamlText.LexRenderFrom` | internal/config/yaml.go:184-205 | printed lines are lexed back as the lines the lexer makes of each |
| `YamlText.LexPrefixed` | internal/config/yaml.go:184-220 | on a printed line, a comment inside its text is cut off and what stands before the text is kept |
| `YamlText.TrimIff` | internal/config/yaml.go:222-241 | trimming a text yields exactly what stands between the spaces around it |
| `YamlScalar.YamlString` | internal/config/serialize.go:84-94 | quotes a scalar exactly when it is empty or holds a special character |
| `YamlTop.PlainIff` | internal/config/serialize.go:84-94 | a scalar is written as it stands exactly when it is not empty and holds none of the seventeen characters, and else in quotes |
| `YamlScalar.Reads` | internal/config/yaml.go:222-241 | a written scalar survives comment stripping, trimming and unquoting, unless it must be quoted while holding a quote or a backslash |
| `YamlScalar.ScalarRoundTripIff` | internal/config/serialize.go:84-94 | for printable text, written and read back on a key line, a string returns exactly when it need not be quoted or holds neither a quote nor a backslash |
| `YamlScalar.NotRead` | internal/config/yaml.go:234-241 | the failing half: such a string always reads back as another one, whether or not a '#' in it is taken for a comment |
| `YamlScalar.ReturnsIff` | internal/config/serialize.go:84-94 | a printable scalar comes back from the settings file exactly when it need not be quoted or holds neither a quote nor a backslash |
| `YamlScalar.NotEmptyReturns` | internal/config/serialize.go:84-94 | a printable scalar that is not empty never comes back empty, however it is quoted and cut |
| `YamlScalar.SplitField` | internal/config/yaml.go:222-232 | a key line splits into its key and its value |
| `YamlRestart.AtoiItoa` | internal/config/yaml.go:93-97 | an interval written in decimal is read as that interval |
| `YamlRestart.FileLexes` | internal/config/yaml.go:184-205 | every line of a written file is lexed as the same line with each scalar cut where the comment scanner cuts it |
| `YamlParse.ParsePlanBlock` | internal/config/yaml.go:374-423 | the loop over plan fields from a position agrees with the block as a function of the lines left, value, end position and errors |
| `YamlParse.ParseProviderFields` | internal/config/yaml.go:338-363 | the continuation keys of a provider, nested plan included |
| `YamlParse.ParseProviderList` | internal/config/yaml.go:312-369 | the provider list, its indentation taken from its first line |
| `YamlParse.ParseStringList` | internal/config/yaml.go:288-307 | the list of scalars, indentation 2 or an error |
| `YamlParse.ParseScalarMap` | internal/config/yaml.go:247-283 | the alerts map: known keys, numeric values, indentation 2, at least one line |
| `YamlParse.ParseYaml` | internal/config/yaml.go:67-180 | the whole file: lexing, top-level keys, nested blocks and the id checks |
| `YamlParse.CheckIds` | internal/config/yaml.go:168-180 | accepts exactly provider lists with non-empty, distinct ids |
| `YamlTop.ScalarsMeaning` | internal/config/yaml.go:67-118 | in every file the parser accepts, interval, listen address, device token and time zone are those of the last line at column 0 with that key, and unset without one |
| `YamlTop.KeyEnvIff` | internal/config/yaml.go:425-460 | a key_env is refused exactly when it starts like an API key |
| `YamlTop.AtoiMeaning` | internal/config/yaml.go:80-91 | decimal integers: an optional sign, digits, and nothing outside 64 bits |
| `YamlConfig.SerializeYaml` | internal/config/serialize.go:16-81 | prints exactly the lines of the settings in the fixed order, with nested loops over alerts, order and providers |
| `YamlConfig.EmitProvider` | internal/config/serialize.go:47-77 | one provider's lines, optional fields omitted as the code omits them |
| `YamlExample.ExampleLines` | internal/config/serialize.go:16-82 | settings with everything the printer writes give these lines: these keys, in this order, at these indentations, and no device token |
| `YamlRestart.PlanSectionReads` | internal/config/yaml.go:374-423 | a printed plan block reads back, unless it printed no field: then the parser refuses it |
| `YamlRestart.AlertSectionReads` | internal/config/yaml.go:117-129 | a printed alerts block reads back, unless no printable key was present: then the bare head is refused |
| `YamlRestart.ProvidersRead` | internal/config/yaml.go:312-369 | the printed provider list reads back provider by provider with its strings as they come back, or is refused if one is unreadable |
| `YamlRestart.SaveThenLoad` | internal/config/yaml.go:67-180 | for all printable settings: the written file is accepted exactly when, with each string as it comes back, ids are distinct and non-empty, no key_env looks like a key, plans print a field and alerts are empty or hold a printed key; what is read is that, with unwritten parts at their defaults |
| `YamlRestart.ConfigReturnsIff` | internal/config/serialize.go:16-94 | printable settings come back with all their strings exactly when each string survives on its own |
| `YamlRestart.RoundTripIff` | internal/config/serialize.go:16-81 | for all printable settings, parse(serialize(settings)) == settings exactly when they are well formed and no string that must be quoted holds a quote or a backslash |
| `ProviderDefaults.OverridesOnly` | internal/config/defaults.go:129-143 | the saved list is, in order, what is saved of each payload provider |
| `ProviderDefaults.SavedMeaning` | internal/config/defaults.go:129-169 | of a payload provider nothing is saved exactly when every field it gives has its default's value; an unknown id is saved as it is, and any other record with each field it gives and the default's where it gives none |
| `ProviderDefaults.EffectiveProviders` | internal/config/defaults.go:173-209 | the six built-in providers in order, each with the enabled flag, title, key_env, probe and plan its configuration gives and the default's where it gives none |
| `ProviderDefaults.InEffect` | internal/config/defaults.go:173-209 | the same for one provider, with the probe flag; only Groq can be probed |
| `ProviderDefaults.BuildYamlProviders` | internal/api/server.go:784-793 | the payload's built-in providers in display order, others dropped |
| `ProviderDefaults.ApplyProviders` | internal/config/config.go:352-354 | loading file providers by id, the last one winning |
| `ProviderDefaults.AppliedFinds` | internal/config/config.go:352-354 | with distinct ids each id finds its own provider and other ids what was there |
| `ProviderDefaults.DroppedIsSame` | internal/config/defaults.go:129-143 | a provider dropped because it matches its default has the default's settings, up to an explicit probe: false |
| `ProviderDefaults.MergeIdempotent` | internal/config/defaults.go:148-168 | merging a saved record with its default again changes nothing |
| `ProviderDefaults.SettingsSurviveRestart` | internal/api/server.go:682-727 | for every payload of the settings handler whose strings survive: the written file is accepted exactly when no built-in provider has an empty plan block or a key-like key_env and the alerts are empty or hold one of the three printed keys; what is read is the settings without the legacy alert, and the effective providers after the restart are those before it, up to an explicit probe: false becoming unset |
| `ProviderDefaults.PayloadTakesEffect` | internal/api/server.go:682-727 | after a settings change and a restart each built-in provider has the values the payload gave it and its default's else, and the file names it exactly when it gave something other than those |
| `ProviderDefaults.EmptyPlanIsRefused` | internal/config/serialize.go:63-77 | a payload the handler accepts, with an empty plan block, whose file the parser refuses |
| `ProviderDefaults.LegacyAlertIsRefused` | internal/config/serialize.go:29-36 | a payload the handler accepts, with the legacy alert alone, whose file the parser refuses |
| `SettingsInEffect.Config.constructor` | internal/config/config.go:92-112 | the settings in effect before any file is read, without a device token |
| `SettingsInEffect.Config.ApplyFile` | internal/config/config.go:326-365 | a start: every value the file gives, device token included and the legacy threshold seeding both new ones unless they are given, over those in effect |
| `SettingsInEffect.Config.SetConfig` | internal/api/server.go:682-778 | a settings change: every value the payload gives over those in effect, its providers as a whole, and what is written to the file |
| `SettingsInEffect.LastGivenCounts` | internal/api/server.go:682-778 | after any run of settings changes each setting is the last one given, or the one before if none was, and the providers are those of the last payload |
| `SettingsInEffect.RestartKeepsIff` | internal/api/server.go:746-777 | the settings other than the providers' are in effect after the next start as the change left them exactly when each is given by the payload, a threshold by its own key, or is at its default anyway, and there was no device token |
| `SettingsInEffect.ChangeThenRestart` | internal/api/server.go:682-778 | a settings change and the start after it, through the written file: when the file is accepted, which providers and which other settings are in effect as before |
| `SettingsInEffect.TokenIsForgotten` | internal/api/server.go:682-744 | a device token from the file stays in effect through every settings change and is gone at the next start: no payload gives it, and the file is replaced by one without it |
| `SettingsInEffect.LegacySeedIsForgotten` | internal/api/server.go:763-774 | a payload with the legacy key and one new key: the other threshold is seeded in memory and back at its default after the next start |
| `SchedPoll.RecomputeTiers` | internal/sched/scheduler.go:315-321 | rewrites the tiers of a row array in place: ok exactly below 50, warn from there to 79, crit from 80, everything else and rows without a percentage untouched |
| `SchedPoll.StepIsLocal` | internal/sched/scheduler.go:107-173 | a step of a fetch goroutine is a step on its own provider's data and leaves every other provider's data alone, shared row arrays included |
| `SchedPoll.RunIsSolo` | internal/sched/scheduler.go:107-173 | however the goroutines interleave, each provider's data is what its own goroutine makes of it alone |
| `SchedPoll.PollIsIndependent` | internal/sched/scheduler.go:107-176 | two complete interleavings of a poll end in the same state |
| `SchedRuns.EveryInterleaving` | internal/sched/scheduler.go:107-173 | after any complete interleaving, each provider's cooldown, last-good block, rows and result have their closed form |
| `SchedRuns.SoloIsOutcome` | internal/sched/scheduler.go:107-173 | six turns of one goroutine compute that closed form: cooldown or fetch, last-good, stale copy, deadline, age check, result |
| `SchedRuns.SixTurnsComplete` | internal/sched/scheduler.go:107-176 | any schedule that gives every goroutine six turns completes the poll |
| `SchedRuns.AnyOrderIsInOrder` | internal/sched/scheduler.go:90-186 | every complete interleaving ends where running the goroutines one after the other does |
| `SchedRuns.Scheduler.FetchOne` | internal/sched/scheduler.go:107-173 | the goroutine body on the scheduler's maps has exactly the effects of the steps |
| `SchedRuns.Scheduler.PollOnce` | internal/sched/scheduler.go:90-186 | a poll in fetcher order: the new maps, and the blocks collected in that order |
| `SchedSafety.OnePoll` | internal/sched/scheduler.go:90-212 | over a run of polls under any interleavings, a provider's data moves from poll to poll by its own goroutine alone |
| `SchedSafety.FetchedFromDeadlineOn` | internal/sched/scheduler.go:124-161 | a polled provider is fetched exactly from the latest deadline on, recorded in the run or loaded with the saved state |
| `SchedSafety.FetchedWithoutDeadline` | internal/sched/scheduler.go:124-161 | a polled provider without any deadline is fetched exactly when the clock is past 1970 |
| `SchedSafety.NoFetchBeforeAnyDeadline` | internal/sched/scheduler.go:124-161 | with a clock that does not run backwards, no provider is fetched before any deadline ever loaded or recorded |
| `SchedSafety.ServedFromLatestOk` | internal/sched/scheduler.go:140-168 | once a provider has a good block, every poll serves it with the data of its latest ok fetch: right after that fetch with exactly its rows, ok exactly unless it is older than two intervals, and later as stale, with the same rows and their tiers computed anew; the message is the latest fetch's, or until when the provider is not asked |
| `SchedSafety.ServedWithoutGood` | internal/sched/scheduler.go:124-168 | a provider that was never good is served what its fetch gave, with that status unless it is older than two intervals, or an empty stale block while it is not asked |
| `SchedOrder.OrderIsOrdered` | internal/sched/scheduler.go:486-535 | the display order is a permutation with kinds in order, ranked plans before unranked and by falling score, and ties in the user's order |
| `SchedOrder.DisplayMeaning` | internal/sched/scheduler.go:454-535 | of two blocks on display the one in front has a kind no later in plan, credit, free; of two plans it was ranked and scores no less if the other was; otherwise its id stands no later in the user's order, or in the canonical one |
| `SchedOrder.OrderIsCanonical` | internal/sched/scheduler.go:486-535 | with distinct, known ids the display order is the same whatever order the fetchers come in |
| `SchedShown.PollAndOrder` | internal/sched/scheduler.go:90-190 | a poll, its blocks collected in fetcher order with their rows, and these in display order |
| `SchedShown.SameEnd` | internal/sched/scheduler.go:90-186 | two polls that differ only in the order of their fetchers, each under an interleaving of its own, end in one state |
| `SchedShown.ShownIsCanonical` | internal/sched/scheduler.go:90-190 | with distinct, known ids a poll puts the same blocks with the same rows on display in the same order, for every interleaving of its goroutines and every order of its fetchers |
| `SetupScan.CleanText` | internal/api/setup.go:1175-1187 | drops control characters and cuts at the first character that no longer fits |
| `SetupScan.CleanTextIsClean` | internal/api/setup.go:1175-1187 | a cleaned name fits its byte bound and holds no control character |
| `SetupClean.PairIdIff` | internal/api/pairing.go:187-202 | a text stands for an address exactly when it is that address of at most 64 permitted characters with nothing but space around it |
| `SetupClean.NameMeaning` | internal/api/setup.go:1175-1188 | a cleaned name is the longest beginning of the text without its control characters that fits its bytes |
| `SetupClean.BytesOfCharacters` | internal/api/setup.go:1175-1188 | how many bytes a character takes |
| `SetupScan.CleanFoundDevices` | internal/api/setup.go:923-957 | the cleaned, deduplicated, bounded and ordered scan list |
| `SetupScan.CleanFoundIsClean` | internal/api/setup.go:923-957 | at most 16 devices with distinct usable addresses, in order, each from the scan; none lost for another reason than the bound |
| `SetupClean.EntriesAreReports` | internal/api/setup.go:923-960 | each entry of a cleaned scan is a report with its address and hardware id trimmed, its name cut to 40 bytes and everything else as heard |
| `SetupClean.ScanOrder` | internal/api/setup.go:949-957 | the list has devices to set up first, then the strongest, then the address in alphabetical order |
| `SetupClean.CandidatesAre` | internal/api/setup.go:962-970 | the candidates are the devices of the list that are not set up |
| `SetupClean.CandidatesAppend` | internal/api/setup.go:962-970 | and they stand in the order of the list |
| `SetupScan.KeepsTheFirst` | internal/api/setup.go:923-943 | of all usable addresses, each with its first report, the list keeps the first 16 in the order of the scan |
| `SetupScan.FirstCandidateIsNearest` | internal/api/setup.go:962-970 | the first candidate of an ordered list is unprovisioned and no unprovisioned device is nearer |
| `SetupScan.NearestIff` | internal/api/setup.go:923-970 | the first candidate is the nearest unprovisioned device of the whole scan exactly when none is crowded out of the first 16 by devices that are not as near, as none ever is of at most 16 |
| `SetupScan.CrowdHidesTheOne` | internal/api/setup.go:941-943 | a scan of 17 devices whose only unprovisioned one comes last: nothing is offered |
| `SetupChannel.Setup.HandleScan` | internal/api/setup.go:407-436 | a scan starts exactly when wired, allowed and idle; the whole new state and the answer |
| `SetupChannel.Setup.FinishScan` | internal/api/setup.go:440-468 | a scan's ending is recorded only under its own generation |
| `SetupChannel.Setup.HandleProvision` | internal/api/setup.go:475-546 | a run starts exactly when idle and the address is in a fresh scan; the whole new state, and for each refusal exactly when it is answered |
| `SetupChannel.Setup.FinishRun` | internal/api/setup.go:551-586 | the whole new channel: a run's ending is recorded only under its own generation |
| `SetupChannel.Setup.RecordStep` | internal/api/setup.go:617-631 | a known step of the running run is recorded, at most 24, anything else dropped |
| `SetupChannel.Setup.HandleStop` | internal/api/setup.go:636-661 | a stop cancels, retires the generation and marks a running run cancelled |
| `SetupChannel.Setup.FindDevice` | internal/api/setup.go:905-915 | the first device of the last scan with that address |
| `SetupSafety.TargetMeaning` | internal/api/setup.go:500-522 | a run may start exactly when nothing runs and a scan of the last three minutes saw the cleaned address |
| `SetupSafety.NextSound` | internal/api/setup.go:407-661 | every request, report and goroutine ending keeps the channel sound |
| `SetupSafety.AlwaysOneOperation` | internal/api/setup.go:326-347 | in every reachable state: not idle iff a cancel function is held, provisioning iff the run is running, then exactly one live goroutine carries the current generation, and every other live goroutine has had its context cancelled |
| `SetupSafety.SupersededForever` | internal/api/setup.go:448-450 | once superseded, a goroutine's ending or reports change the channel no more, whatever happens first |
| `SetupSafety.FinishedRunStays` | internal/api/setup.go:529-534 | a finished or stopped run stays as it is until another run is started |
| `SetupHistory.ShownAsEnded` | internal/api/setup.go:551-586 | in every reachable state the run shown is running exactly while nothing has ended it; applied, cancelled or failed, with the failure, exactly as its own goroutine's ending or the owner's stop says, and at that time |
| `SetupHistory.ShownAsTold` | internal/api/setup.go:617-635 | in every reachable state the run shown lists the first 24 known steps its own goroutine has reported since it started, with their times, and the latest as current |
| `SetupHistory.ShownAsScanned` | internal/api/setup.go:436-468 | in every reachable state the scan shown is that of the last ending the channel waited for: what it heard, cleaned, or its failure, at its time |
| `SetupHistory.GenerationCounts` | internal/api/setup.go:407-661 | in every reachable state the generation is the number of operations started and stopped so far |
| `SetupSafety.RunWasSeen` | internal/api/setup.go:506-534 | every run, at every time, goes to a device that the scan of its start, then at most three minutes old, had seen |
| `SetupSafety.OfferIsNearest` | internal/api/setup.go:846-859 | in every reachable state a device is offered only when nothing runs and a scan is fresh; then it is the nearest unprovisioned one of the devices kept, and of all that scan heard exactly when none was crowded out of the first 16 |
| `StatsFold.ScanLines` | internal/stats/scan.go:557-671 | the line loop with its five maps and carried model and day gives the totals, key by key, of the bookings the lines make, and the carry to resume with |
| `StatsFold.ReadingOn` | internal/stats/scan.go:550-564 | reading on with the carried model and day books the same as reading through |
| `StatsFold.CarryMeaning` | internal/stats/scan.go:512-564 | the carry after any lines is the model named last and the day of the last context line or, if that has none, the first a settings line has after it |
| `StatsFold.BookingOfLine` | internal/stats/scan.go:565-642 | each token count books one entry: under the model it names, else the one carried, else as unknown; on the day carried, else its own; reasoning as output and cached tokens as cache reads |
| `StatsFold.OneBookingPerCount` | internal/stats/scan.go:565-642 | and nothing else books anything |
| `StatsFold.SampleTranscript` | internal/stats/scan.go:512-642 | a transcript with a line of each kind, and what is booked of it |
| `StatsResume.Aggregates.Merge` | internal/stats/scan.go:119-143 | a file's result is added to the source's maps key by key, in whatever order they are walked, and the discovery order still lists each model once |
| `StatsResume.ScanFile` | internal/stats/scan.go:512-690 | what one file contributes and the index entry it leaves, line count included: cache hit, resumed read, full read, or a line too long, which alone counts the file as truncated |
| `StatsResume.ReadExactlyWhenChanged` | internal/stats/scan.go:512-560 | a file of the same size and time is reported from what was stored; any other adds what was appended, if it has grown from a size above 0, and else the whole file once more |
| `StatsResume.MergeIsAppend` | internal/stats/scan.go:119-143 | merging the aggregates of two lists of bookings gives the aggregates of both together |
| `StatsResume.ResumeIsFullRead` | internal/stats/scan.go:536-564 | a full read followed by one resumed read of the appended lines reports what one read of the whole file reports, and leaves the same carry |
| `StatsResume.ChainTracks` | internal/stats/scan.go:673-689 | after every chain of visits to a file that only grows, with unchanged visits and unreadable ones among them, the index holds the result of the last stretch read and the carry of all of them |
| `StatsResume.ChainReports` | internal/stats/scan.go:673-689 | what the next visit of any such chain reports: the last two stretches if the file grew, only the last one if it is unchanged, nothing if a line is too long |
| `StatsResume.ChainAgreesIff` | internal/stats/scan.go:673-689 | the next visit of any such chain agrees with reading the file whole exactly when what was read before the last stretch of the chain holds no token_count line |
| `StatsResume.TwoResumesLoseTheFirst` | internal/stats/scan.go:681-685 | a concrete file of three turns whose first turn the third scan no longer reports |
| `StatsResume.MergingKeepsWhole` | internal/stats/scan.go:681-685 | with an index step that stores the merged result instead, every visit of every such chain reports the whole file |
| `StatsTotals.Conservation` | internal/stats/scan.go:119-143 | of every result, the models, the days and the (day, model) pairs add up to the same tokens, the models and days to the same requests, one for each booking |
| `StatsTotals.MergesConserve` | internal/stats/scan.go:119-143 | after any sequence of merges, the source's aggregates are those of all files' bookings together |
| `StatsTotals.SyntheticHasNoPrice` | internal/stats/prices.go:38-104 | the embedded table and its aliases give the synthetic model no price |
| `StatsTotals.TableIsNotNegative` | internal/stats/prices.go:38-104 | no rate of the embedded table is negative, whichever name a model goes by |
| `StatsTotals.TableIsOrdered` | internal/stats/prices.go:38-106 | in the embedded table, aliases included, reading the cache is never dearer than input, input never dearer than output, and writing the cache free or no cheaper than input |
| `StatsTotals.ClaudeCacheWrites` | internal/stats/prices.go:22-52 | writing the cache of a Claude model costs a quarter more than input, as the pricing comment says |
| `StatsTotals.PricesAreFound` | internal/stats/prices.go:38-106 | a model of either part of the table is found under its name, and under an alias |
| `StatsWindows.CostAdds` | internal/stats/prices.go:12-17 | a price is linear in the tokens |
| `StatsWindows.UnitCosts` | internal/stats/prices.go:12-17 | a million tokens of each kind cost that kind's rate |
| `StatsWindows.Windows` | internal/stats/scan.go:697-723 | the pass over the days, in any order, gives today and month the totals, requests, cost and per-model tokens of exactly their days |
| `StatsWindows.AddDay` | internal/stats/scan.go:703-722 | one day added to a window, models walked in any order |
| `StatsWindows.BuildModelsList` | internal/stats/scan.go:805-842 | one row for each model but the synthetic one, the unpriced models, and those of them that hold tokens in each window |
| `StatsWindows.MonthIsItsModels` | internal/stats/scan.go:805-842 | month tokens are those of the rows and the synthetic share left out, month cost that of the rows and of that share, and exactly the rows' costs when the synthetic model has no price |
| `StatsWindows.TodayWithinMonth` | internal/stats/scan.go:697-723 | with token counts that are not negative, today never exceeds the month: in no token kind, not in requests, and not in cost unless a rate is negative |
| `StatsWindows.TodayCostsWithinMonth` | internal/stats/scan.go:97-107 | with the scan's own prices, those it is given and then the embedded table, today never costs more than the month unless a given rate is negative |
| `Portal.InsertNetwork` | firmware/src/usage/portal.cpp:172-220 | one scan result inserted into the array in place: hidden, known weaker, known stronger, new, and off the end of a full list |
| `Portal.CloseGap` | firmware/src/usage/portal.cpp:193-196 | the entries behind a removed one move forward |
| `Portal.PutAt` | firmware/src/usage/portal.cpp:213-219 | the entries from a position move back, the last falls off a full list, and the new one is stored |
| `PortalTopK.StrongestNetworks` | firmware/src/usage/portal.cpp:172-220 | after any scan with names of at most 32 bytes: ordered by strength, names distinct, each entry the strongest offer of its name, as long as the bound or the number of names allows, and no name left out is stronger than the last entry |
| `PortalTopK.EntriesAreOffers` | firmware/src/usage/portal.cpp:172-220 | every entry of the list is an offer of the scan, its strength brought into a signed byte, and the first of its name that none of that name beats |
| `PortalTopK.LongNamesRepeat` | firmware/src/usage/portal.cpp:188-217 | beyond 32 bytes the rule breaks: any longer name offered twice is listed twice under one cut name |
| `PortalTopK.OnceIff` | firmware/src/usage/portal.cpp:172-220 | a name offered twice is listed once exactly when it has at most 32 bytes |
| `Advise.ComputeWindows` | internal/advise/advise.go:232-276 | the three quota windows by exact key, with headroom, pace, staleness and exhaustion |
| `Advise.BindingIsTightest` | internal/advise/advise.go:319-329 | the binding window has the least headroom and, of those, the longest length |
| `Advise.Aggregate` | internal/advise/advise.go:319-329 | the loop finds that window |
| `Advise.ComputeBlocked` | internal/advise/advise.go:357-376 | whether, by which window and for how long a provider is blocked, as the scan over its windows decides |
| `Advise.HoldMeaning` | internal/advise/advise.go:357-376 | blocked exactly when some window is exhausted; key and time are those of the soonest reset ahead among the exhausted ones, and there is no time exactly when the first exhausted window is past its reset |
| `Advise.BlockedTimeIff` | internal/advise/advise.go:353-376 | for a blocked provider, the time is that of the earliest reset, 0 if that is past, exactly when the first exhausted window is past its reset or none is |
| `Advise.LaterPastIsMissed` | internal/advise/advise.go:353-376 | a window that resets in ten seconds before one whose reset is past: the time is ten seconds, not 0 |
| `Advise.RankProviders` | internal/advise/advise.go:106-228 | the ranked list and the winner, from the loops over providers and the ranking |
| `Advise.PickWinner` | internal/advise/advise.go:175-202 | the two winner loops: first usable, else soonest to free |
| `AdviseRank.RankIsCanonical` | internal/advise/advise.go:156-168 | with distinct ids the verdict is the same for every permutation of the input |
| `AdviseRank.WinnerIsBest` | internal/advise/advise.go:175-202 | the winner is the best usable plan with headroom, else the blocked plan with headroom and a reset ahead that frees soonest, and nobody exactly when there is neither; every rankable plan is listed, best first |
| `AdviseRank.HeadroomBounds` | internal/advise/advise.go:253-270 | for percentages from 0 to 100, headroom is from 0 to 100 and never less than what is plainly left |
| `AdviseRank.HeadroomMonotone` | internal/advise/advise.go:259-265 | inside the horizon, more use or a later reset never raises the headroom, and a reset at the horizon credits nothing |
| `AdviseRank.PaceBetween` | internal/advise/advise.go:294-312 | the pace lies between 1 and the raw pace, is the raw pace once a tenth of the window has passed, and never exceeds 99.9 |
| `AdviseMeaning.WindowMeaning` | internal/advise/advise.go:232-290 | which rows are read as windows, their lengths, and when a window is stale, blocked or has a neutral pace |
| `AdviseMeaning.WindowsAppend` | internal/advise/advise.go:232-290 | rows are read in their order |
| `AdviseMeaning.WindowsOfOne` | internal/advise/advise.go:232-290 | and each on its own |
| `AdviseMeaning.HeadroomMeaning` | internal/advise/advise.go:265-283 | headroom is all that is not used and, inside the horizon, also the share of the use that is not waited for, to the nearest integer; over real arithmetic |
| `AdviseMeaning.PaceMeaning` | internal/advise/advise.go:294-314 | the exact pace of every window: the used share over the elapsed share up to 99.9, less than a tenth of the window counting proportionally less, down to a hundredth; over real arithmetic |
| `AdviseMeaning.SecondsMeaning` | internal/advise/advise.go:357-376 | the whole seconds to a reset, cut towards zero |
| `AdviseMeaning.RankedMeaning` | internal/advise/advise.go:106-161 | exactly the plans that report and have a window are ranked, by the headroom and with the pace of the tightest and then longest window, blocked exactly when some window is used up, with the time to its reset |
| `AdviseMeaning.RankingOrder` | internal/advise/advise.go:163-177 | more headroom first, of equal headroom the lower pace, and of equal pace the ids in alphabetical order |
| `AdviseMeaning.WinnerMeaning` | internal/advise/advise.go:179-210 | the winner is the first ranked plan that can be used now, else the first of those that can be used soonest, and nobody exactly when there is neither |
| `Sorting.SortIsStable` | internal/advise/advise.go:163-177 | sorting leaves the order among elements that compare alike as it was |
| `Pages.KindRowCount` | firmware/src/usage/render_plan.cpp:153-160 | the byte counter is the number of rows of a kind: with six providers of six rows it does not wrap |
| `Pages.CountPages` | firmware/src/usage/render_plan.cpp:163-176 | the pages are the sum over kinds of rows divided by five, rounded up, and one help page |
| `Pages.ResolvePage` | firmware/src/usage/render_plan.cpp:180-206 | a flat page number resolves to the kind and first row of its page |
| `Pages.BuildLines` | firmware/src/usage/render_plan.cpp:353-390 | the nested loops with their skipping and filling give exactly the five-line slice of the kind's rows |
| `Pages.BuildPlan` | firmware/src/usage/render_plan.cpp:255-392 | the page for every number: help from the last card on, else the card's kind and lines |
| `Pages.PagesPartitionTheRows` | firmware/src/usage/render_plan.cpp:353-392 | the pages of a kind, read one after the other, are exactly that kind's lines in order |
| `Pages.RowIsShown` | firmware/src/usage/render_plan.cpp:353-392 | every row of a plan, credit or free provider is a line of the one card its number among the rows of that kind gives: plans, then credit, then free, five rows a card, dimmed and marked as its provider's state says |
| `Pages.CardsAreFilled` | firmware/src/usage/render_plan.cpp:180-206 | every page before help is a card of its kind with one to five lines |
| `Pages.HelpIsLast` | firmware/src/usage/render_plan.cpp:288-292 | help is shown exactly from the number of card pages on |
| `Pages.HelpIsOnce` | firmware/src/usage/render_plan.cpp:195-220 | the cycle has one page for every five rows of a kind, rounded up, and exactly one more, the last, for help |
| `Pages.NextPage` | firmware/src/usage/render_plan.cpp:474-480 | one press of the button |
| `Pages.CycleVisitsAll` | firmware/src/usage/render_plan.cpp:474-480 | from any page, each page is reached by exactly one number of presses below the number of pages |
| `RateLimiter.Limiter.Allow` | internal/api/server.go:183-196 | the verdict and the new counter and window start |
| `RateLimiter.RunFallsIntoSpans` | internal/api/server.go:183-196 | over every run with a clock that does not run backwards, the events let through fall into windows that start more than the window length apart and hold at most the maximum, at least one |
| `RateLimiter.LessThanTwice` | internal/api/server.go:183-196 | no stretch of time as long as the window lets through twice the maximum: at most one event less |
| `RateLimiter.BoundIsReached` | internal/api/server.go:183-196 | for every maximum and every window of positive length, a run in which a stretch of that length lets through exactly that many |
| `RateLimiter.SlidingPromiseIff` | internal/api/server.go:168-196 | every run keeps the maximum in every stretch as long as the window exactly when the maximum is 1, or at least 1 with a window of no length |
| `RateLimiter.OwnPromiseIff` | internal/api/server.go:168-196 | every run keeps the maximum in each of the limiter's own windows exactly when the maximum is at least 1 |

## Left out

Parts of the repository:

- Radio, GATT, HTTP, sockets, mDNS transport, Keychain, filesystem, JSON, logging and drawing: a fetch, a scan result, a
  file's lines or a request is an arbitrary input.
- The Wi-Fi join state machine and the boot-time helpers of `firmware/src/usage/provision.cpp:96-221`, the device
  information record, passkey formatting and all text tables: small members with easy contracts.
- The page renderer, HTML escaping and form rules of the captive portal, the web pages, and the serial formatters.
- The Claude transcript reader: its deduplication does not carry across scans, so the laws proved for Codex transcripts
  do not hold for it. Plan values, peak day and the 182-day list of the report are left out as well.
- Publishing, persistence of state and the snapshot's revision hash in the scheduler; setters that run between polls.

Deliberate limits of what is modelled:

- BleDelivery.Send: every write and every status arrives; lost links, pairing, the device's protocol version and the
  wait for the device to join are not part of it. That the status read after each write is never a refusal is proved, so
  the early returns for one are left out.
- BleDecoder.Decoder.Parse: what a refused parse leaves in the record is not stated; COMMIT wipes it at once.
- BleWire.Encode: wiping the record afterwards is not modelled.
- BleDecoder.Decoder.OnControl: null pointers with a non-zero length do not exist in the model.
- YamlParse.ParseYaml: every error is one result without its text and line number.
- YamlScalar.YamlString: characters above ASCII stand for themselves when quoted; whether Go would call one printable is
  not modelled. Text is a sequence of Unicode characters, so invalid UTF-8 does not occur.
- YamlRestart.SaveThenLoad: FormatFloat and ParseFloat are any pair of functions of which the second undoes the first on
  numerals; NaN, infinities and negative zero are not numbers of the model. A nil and an empty alerts map are one value.
- SchedPoll.RunIsSolo: the interval is read once for a poll, and the rows a cooled-down provider shares are rewritten in
  one step, as if the tier loop ran undisturbed.
- SchedRuns.Scheduler.PollOnce: runs its goroutines one after the other and stops before the display order; that any
  interleaving ends in the same state is `SchedRuns.AnyOrderIsInOrder`, and the ordering is `SchedShown.PollAndOrder`.
- SettingsInEffect.Config.ApplyFile: environment variables and flags, which override the file, are not modelled, so a
  start is one without any; a time zone is its name.
- SettingsInEffect.Config.SetConfig: what the handler has rejected before is not its input; its requires is the
  handler's check of the interval, and that a payload has no field for a device token.
- SetupChannel.Setup.HandleProvision: the rate limiter's verdict is an argument; the body decoder and the rendered
  sentences are not modelled, a failure is kept as its device code and stage.
- SetupChannel.Setup.HandleScan: the deadline of a context is not modelled; a goroutine may end at any time.
- StatsFold.ScanLines: a line is given by the fields the scan reads and its day key; JSON and time zones are inputs, and
  token counts do not overflow 64 bits.
- StatsResume.ScanFile: what a read from the old size on yields is an input; the laws assume it starts at a line end.
- StatsResume.ChainAgreesIff: the chain's file only grows; a file that shrank or was rewritten at the same size is read
  again on top of its old result.
- StatsWindows.Windows: where a day key starts is a given function.
- Advise.RankProviders: the explanation texts are left out, and fractions are real numbers, not floating point.
- Pages.BuildPlan: titles, colours, banner, footer and the mark appended to a label are left out; a line carries its row
  and the two flags that decide them.
- Portal.InsertNetwork: a name is the bytes before the terminator.
- RateLimiter.Limiter.Allow: the clock is read inside the lock.
