# ELM327 protocol engine, modelled in Dafny

`ELM327.py` drives an ELM327 OBD-II adapter over a serial port. It sends an
ASCII request such as `0105\r` and reads back characters up to the adapter's
`>` prompt. It normalises the reply: every `\r` becomes `\n`, doubled newlines
are merged, and `NO DATA` becomes fourteen zeros. `PruneData` then cuts the
echoed request bytes off the front of every line and joins the lines.

`Connect` asks for PID `0100`. An `UNABLE TO CONNECT` reply means failure.
Otherwise it adds three hand-made entries to the table of valid PIDs and
resolves the ECU's "supported PIDs" bitmaps:

- mode 01 blocks `0100`, `0120`, … `01C0`, each requested only when the
  previous block announced it;
- then mode 05 (`050100`) and mode 09 (`0900`).

`ResolvePidData` walks a bitmap from its last bit upwards while a PID counter
counts down. It registers every PID whose bit is set, labelled from a
description table.

`DoPID` looks a PID up in the `PidFunctions` table and runs its handler:

- a data decoder (coolant temperature, RPM, fuel trims, the monitor status
  record, vehicle text, …);
- a raw reply;
- the trouble-code list of services 03 and 07;
- a `:TODO:` placeholder.

A PID with no handler answers `!NOT IMPLEMENTED!`. A data PID the ECU does not
support answers `N/A`. Any exception becomes `!ERROR!`.

The project has six modules:

- `pystr.dfy` (`PyStr`): the Python primitives the engine relies on.
  - `Py<T>` is a result or a raised exception.
  - It covers `int(s, 16)`, `int(s)`, `'%2.2X'`, slicing, `str.replace`,
    `str.split`, `bytearray.fromhex` and ASCII decoding.
- `response.dfy` (`Response`): the read loop up to the prompt, the
  normalisation chain and `PruneData`.
- `registry.dfy` (`Registry`): the bitmap walk of `ResolvePidData` and the
  float-halving finding below.
- `troublecodes.dfy` (`TroubleCodes`): `DataToTroubleCodes` and the
  description lookup of `GetTroubleCodeData`.
- `decoders.dfy` (`Decoders`): the per-PID decoders and the monitor-status
  record of PID `0101`.
- `engine.dfy` (`Engine`): the `PidFunctions` table, the engine as a state
  transformer (`RunOf`, `DoPIDOf`, `ConnectOf`) and the class `Elm327`.
  - `Elm327` has the mutable valid-PID table and a log of the requests
    written.
  - Each of its methods is proved equal to its state-transformer function.

The serial port is a parameter `device: string -> seq<byte>`: the bytes the
adapter sends back after a request. `Responsive(device)` demands that every
reply holds a prompt. This is what the source's read loop needs to stop, since
`read()` never returns the integer 0. Floating-point results are exact reals.

The device answers per command: the same request always gets the same
reply. So the two `0100` requests of `Connect` (its connection test at
ELM327.py:296 and `PID0100` at ELM327.py:460) see the same bitmap.

The model follows the code where the code does something other than its
names and the standards it follows suggest, with one exception:

- **Normalisation is not idempotent.** The code's replace chain is a single
  pass, so a run of `k` carriage returns or line feeds becomes `(k + 1) / 2`
  line feeds, and three or more carriage returns leave a run that a second
  pass shortens again (`Response.NormalizeCarriageReturnRun`,
  `Response.NormalizeNewlineRun`, `Response.NormalizeNotIdempotent`).
- **The trouble-code prefix replaces the first digit.** SAE J2012 writes a
  trouble code as a letter and four digits, such as `P0101`. The code
  replaces the group's first digit by its prefix entry (ELM327.py:414), so
  with a prefix table mapping `0` to `P`, group `0101` gives `P101`
  (`TroubleCodes.OneGroup`). A group is read with `int()`, so a group with a
  hex letter raises `ValueError` (`TroubleCodes.NonDecimalRaises`), and a
  group whose first digit is missing from the table raises `KeyError`
  (`TroubleCodes.MissingPrefixRaises`).
- **A missing description or lookup raises `NameError`.** `STRING_INVALID`
  and `STRING_NO_DESCRIPTION` are class attributes (ELM327.py:42-43), but
  the code uses them as bare names (ELM327.py:398, 434, 593, 597, 798, 936).
  So a PID or trouble code without a description, or a fuel-system,
  secondary-air or OBD-standard value missing from its table, raises
  `NameError`. `DoPID` then answers `!ERROR!`. It never answers
  `[INVALID]` or `[NO DESCRIPTION]`.
- **The exception: PID bitmaps are halved exactly.** ELM327.py:399 halves the
  bit counter through a float. The engine (`Registry.ResolvePids`,
  `Engine.Elm327.ResolvePidData`) uses the integer halving that was evidently
  intended; the code as written is modelled beside it (`Registry.FloatHalf`,
  `Registry.WalkAsWritten`) and the difference is listed under "Findings".

## Model

| member | source | states |
|---|---|---|
| PyStr.ParseHex2 | ELM327.py:394 | `int('%2.2X' % n, 16)` gives back `n` for every count |
| PyStr.Hex2Injective | ELM327.py:394-398 | two counts give the same two-digit PID index exactly when they are equal, so each set bit registers its own key |
| PyStr.HexValueBound | ELM327.py:389-391 | a bitmap of `len(PidData)` hex digits is below 2^(4·len), so the counter never runs below the start value |
| PyStr.FormatHex | ELM327.py:394 | the formatted index is non-empty and all hex digits |
| PyStr.ReplaceAbsent | ELM327.py:380 | `str.replace` leaves a string without the pattern unchanged |
| PyStr.ReplaceFirst | ELM327.py:380 | `str.replace` copies everything before the leftmost occurrence, puts the replacement there and goes on after the pattern |
| PyStr.ReplaceRemovesAll | ELM327.py:380 | when the replacement shares no character with the pattern, none of the pattern is left |
| PyStr.ReplaceChars | ELM327.py:380 | every character of the result comes from the input or the replacement |
| PyStr.JoinSplit | ELM327.py:449 | joining the pieces of `split('\n')` with `\n` gives the input back |
| PyStr.SplitPiecesFree | ELM327.py:449 | no piece of `split('\n')` holds a newline |
| PyStr.SplitAtSeparator | ELM327.py:449 | splitting `a + '\n' + b` splits `a` and `b` separately |
| PyStr.SplitNoSeparator | ELM327.py:449 | a text without a newline is a single line |
| PyStr.FromHex | ELM327.py:1334 | `bytearray.fromhex` skips ASCII whitespace between byte pairs, gives at most half as many bytes as characters and exactly half on plain hex digits, or raises ValueError |
| PyStr.DecodeAscii | ELM327.py:1334 | decoding succeeds exactly when every byte is ASCII, character by character, else raises UnicodeDecodeError |
| Response.Frame | ELM327.py:375-379 | the bytes read are those before the first prompt, which is not among them |
| Response.ReadUntilPrompt | ELM327.py:375-379 | the read loop returns the text of the bytes before the first prompt |
| Response.FrameOfReply | ELM327.py:375-379 | whatever follows the first prompt is never read |
| Response.ReceivedText | ELM327.py:375-379 | an ASCII reply without `>` sent before the prompt is read back exactly |
| Response.NormalizeNoCarriageReturn | ELM327.py:380 | no `\r` is left after normalising |
| Response.NormalizeNoData | ELM327.py:380 | no `NO DATA` is left after normalising |
| Response.NormalizeOneLine | ELM327.py:380 | a one-line reply ended by `\r\r` becomes that line and one newline, with `NO DATA` replaced |
| Response.NormalizeTypicalReply | ELM327.py:380 | a hex reply ended by `\r\r` becomes the hex and one newline |
| Response.NormalizeNoDataReply | ELM327.py:380 | `NO DATA\r\r` becomes fourteen zeros and a newline |
| Response.NormalizeCarriageReturnRun | ELM327.py:380 | a run of `k` carriage returns normalises to `(k + 1) / 2` line feeds |
| Response.NormalizeNewlineRun | ELM327.py:380 | a run of `k` line feeds normalises to `(k + 1) / 2` line feeds |
| Response.NormalizeNotIdempotent | ELM327.py:380 | for three or more carriage returns, normalising twice differs from normalising once |
| Response.PruneData | ELM327.py:447-451 | the loop's result is every line with its first `2·n` characters cut, joined without separators |
| Response.PruneLinesAppend | ELM327.py:447-451 | pruning two runs of lines is pruning each and concatenating |
| Response.PruneLinesNoNewline | ELM327.py:447-451 | lines without newlines prune to a text without newlines |
| Response.PruneLinesLength | ELM327.py:447-451 | pruning loses at least the separators |
| Response.PrunedSingleLine | ELM327.py:447-451 | the pruned text is one line |
| Response.PrunedAtLineBreak | ELM327.py:447-451 | pruning a text with a line break prunes each side on its own |
| Response.PrunedOneLine | ELM327.py:447-451 | pruning a single line drops its first `2·n` characters |
| Response.PrunedReply | ELM327.py:380 | a hex reply of an `n`-byte echo and a payload, normalised then pruned by `n`, is exactly the payload |
| Response.PrunedShorter | ELM327.py:447-451 | pruning never lengthens the text |
| Registry.ResolvePids | ELM327.py:388-391 | resolving raises ValueError exactly when the start or the bitmap is not hex |
| Registry.WalkCompletes | ELM327.py:392-398 | the walk ends without NameError exactly when every announced PID has a description |
| Registry.WalkRegistersAnnounced | ELM327.py:392-400 | a completed walk adds exactly the announced PIDs with their descriptions |
| Registry.WalkKeys | ELM327.py:392-400 | the walk keeps every key and adds only announced ones |
| Registry.WalkLeavesOthers | ELM327.py:392-400 | a key the bitmap does not announce keeps its value |
| Registry.AnnouncedRange | ELM327.py:389-394 | every announced PID lies between start+1 and start+4·len |
| Registry.NotAnnouncedAbove | ELM327.py:391-400 | no PID above the counter's first value is announced |
| Registry.RegisteredHasAnnounced | ELM327.py:395-396 | each announced PID ends up registered under mode + index |
| Registry.ResolveRegistersAnnounced | ELM327.py:388-400 | resolving completes exactly when every announced PID is described, then registers exactly those, and never removes a key |
| Registry.ResolveKeepsShortKeys | ELM327.py:388-400 | no key is dropped, and keys shorter than a PID of this mode keep their value |
| Registry.ResolveNextRange | ELM327.py:309-313 | a four-byte bitmap registers the next block's PID exactly when its last bit is set |
| Registry.FloatHalfDecreases | ELM327.py:399 | `int(v / 2)` shrinks every positive value, so the loop ends |
| Registry.FloatHalfExact | ELM327.py:399 | below 2^53, `int(v / 2)` is exact halving |
| Registry.PidIndexRoundTrip | ELM327.py:394 | the index formatted from any counter, negative too, reads back as that counter |
| Registry.PidIndexInjective | ELM327.py:394 | different counters give different indexes |
| Registry.PidKeysDiffer | ELM327.py:396-398 | different counters give different keys |
| Registry.WalkAsWrittenBelow | ELM327.py:392-400 | the walk as written never registers a key above its counter |
| Registry.AsWrittenSkipsPid | ELM327.py:399 | with the float halving, bitmap 2^k+2 (k ≥ 55) never registers PID top−1 |
| Registry.ExactRegistersPid | ELM327.py:392-400 | with exact halving, the same bitmap registers PID top−1 |
| Registry.WalkAsWrittenLosesPid | ELM327.py:399 | the float-halving walk and the exact walk differ on bitmap 2^k+2 |
| TroubleCodes.Groups | ELM327.py:411-415 | the payload is cut into ⌈len/4⌉ groups of one to four digits |
| TroubleCodes.ConcatGroups | ELM327.py:411-415 | the groups put back together are the payload |
| TroubleCodes.DataToTroubleCodes | ELM327.py:409-416 | the loop computes the code list of the groups in order, or the exception of the first bad group |
| TroubleCodes.TroubleCodesCount | ELM327.py:411-415 | there are at most ⌈len/4⌉ codes |
| TroubleCodes.ZerosHaveNoCodes | ELM327.py:413 | an all-zero payload gives no codes |
| TroubleCodes.OneGroup | ELM327.py:413-414 | a non-zero decimal group becomes its prefix entry followed by its last three digits |
| TroubleCodes.NonDecimalRaises | ELM327.py:413 | a payload with a non-decimal digit raises |
| TroubleCodes.MissingPrefixRaises | ELM327.py:413-414 | a non-zero group whose first digit has no prefix entry makes the whole list raise |
| TroubleCodes.TroubleCodesAppend | ELM327.py:411-415 | the codes of two payloads, the first of whole groups, are the codes of each in order |
| TroubleCodes.ThenAssociative | ELM327.py:411-415 | chaining the group results is associative, so any split into whole groups agrees |
| TroubleCodes.UndescribedRaises | ELM327.py:430-434 | a code without a description raises NameError |
| TroubleCodes.DescribeTroubleCodes | ELM327.py:430-434 | the loop maps every code to its description, or raises NameError |
| Decoders.Byte | ELM327.py:717 | `int(Response[2i:2i+2], 16)` succeeds exactly when that slice is non-empty and all hex (a single trailing digit included), and gives a byte |
| Decoders.Whole | ELM327.py:626 | `int(Response, 16)` succeeds exactly on a non-empty hex text |
| Decoders.WholeOfEncoded | ELM327.py:626 | the hex text of some bytes reads back as their big-endian value |
| Decoders.ByteOfEncoded | ELM327.py:717 | the i-th byte of a hex text reads back as that byte |
| Decoders.FromHexOfEncoded | ELM327.py:1334 | `fromhex` of the hex text of some bytes gives those bytes |
| Decoders.FromHexSpaceSeparated | ELM327.py:1334 | `fromhex` of byte pairs separated by spaces, as the adapter sends them with spaces on, gives those bytes |
| Decoders.DecodeLoad | ELM327.py:606-615 | calculated load is defined exactly on hex, is non-negative and at most 100 for one byte |
| Decoders.LoadRoundTrip | ELM327.py:612 | the reply for byte `A` decodes to `100·A/255` |
| Decoders.DecodeCoolant | ELM327.py:620-629 | coolant temperature is defined exactly on hex, at least −40, below 216 for one byte |
| Decoders.DecodeFuelTrim | ELM327.py:633-681 | a fuel trim is defined exactly on hex, from −100 up, below 100 for one byte |
| Decoders.FuelTrimRoundTrip | ELM327.py:639 | the reply for byte `A` decodes to `100·A/128 − 100` |
| Decoders.DecodeFuelPressure | ELM327.py:685-694 | fuel pressure is a non-negative multiple of 3, at most 765 for one byte |
| Decoders.DecodeNumber | ELM327.py:698-707 | a plain number is defined exactly on hex and is a byte for one byte |
| Decoders.DecodeRpm | ELM327.py:711-720 | RPM needs two bytes and lies in [0, 16384) |
| Decoders.DecodeSpeed | ELM327.py:724-733 | speed needs one byte and lies in [0, 256) |
| Decoders.DecodeTimingAdvance | ELM327.py:737-746 | timing advance needs one byte and lies in [−64, 64) |
| Decoders.DecodeIntakeAir | ELM327.py:750-759 | intake air temperature needs one byte and lies in [−40, 216) |
| Decoders.DecodeAirFlow | ELM327.py:763-772 | air flow needs two bytes and lies in [0, 655.36) |
| Decoders.DecodeThrottle | ELM327.py:776-785 | throttle position needs one byte and lies in [0, 100] |
| Decoders.ThrottleRoundTrip | ELM327.py:782 | a reply starting with byte `A` decodes to `100·A/255`, whatever follows |
| Decoders.DecodeSensorsPresent | ELM327.py:805-819 | the record has exactly BANK1 and BANK2, each a nibble |
| Decoders.DecodeOxygenSensor | ELM327.py:823-923 | the reading needs two bytes and is a set of one or two reals |
| Decoders.DecodeDistance | ELM327.py:956-965 | distance needs two bytes and lies in [0, 65536) |
| Decoders.CoolantRoundTrip | ELM327.py:626 | the byte `celsius + 40` decodes to `celsius` |
| Decoders.CoolantReadsWholeReply | ELM327.py:626 | PID 0105 reads the whole pruned reply, not only byte A |
| Decoders.FuelPressureRoundTrip | ELM327.py:691 | the byte `kPa / 3` decodes to `kPa` |
| Decoders.NumberRoundTrip | ELM327.py:704 | a byte decodes to itself |
| Decoders.RpmRoundTrip | ELM327.py:717 | bytes A, B of a quarter-RPM count decode to the count / 4 |
| Decoders.SpeedRoundTrip | ELM327.py:730 | byte A decodes to the speed |
| Decoders.IntakeAirRoundTrip | ELM327.py:756 | the byte `celsius + 40` decodes to `celsius` |
| Decoders.TimingAdvanceRoundTrip | ELM327.py:743 | the byte `h + 128` decodes to `h / 2` degrees |
| Decoders.AirFlowRoundTrip | ELM327.py:769 | bytes A, B decode to the count / 100 |
| Decoders.DistanceRoundTrip | ELM327.py:962 | bytes A, B decode to `256·A + B` |
| Decoders.SensorsPresentRoundTrip | ELM327.py:812-814 | the nibbles of byte A decode to the two bank counts |
| Decoders.OxygenSensorRoundTrip | ELM327.py:829 | the reply for bytes A, B decodes to the voltage A/200 and the trim 100·B/128 − 100, whatever bytes follow |
| Decoders.OxygenSensorCollapses | ELM327.py:829 | the set holds one value exactly when A = 0 and B = 128 |
| Decoders.DecodeFuelSystem | ELM327.py:583-602 | the record is defined exactly when both status codes are in the table, else NameError |
| Decoders.FuelSystemOfEncoded | ELM327.py:590-597 | bytes A, B are looked up as their two-digit hex text |
| Decoders.DecodeLookup | ELM327.py:789-801 | succeeds exactly when the whole reply is a key of the table, and then gives that key's entry as text; otherwise NameError |
| Decoders.DecodeText | ELM327.py:1334 | the text has at most one character per two reply characters, exactly one per byte on plain hex, and no NUL; errors are ValueError or UnicodeDecodeError |
| Decoders.SpacedTextRoundTrip | ELM327.py:1334 | an ASCII reply sent as space-separated byte pairs decodes to its characters, with NUL bytes turned into spaces |
| Decoders.TextRoundTrip | ELM327.py:1334 | ASCII bytes decode to their text with every NUL as a space |
| Decoders.BlankedAscii | ELM327.py:1334 | blanking NULs then decoding gives the spaced text |
| Decoders.AppendTo | ELM327.py:484-486 | `+=` on a record entry appends to a text entry, and raises KeyError on a missing key |
| Decoders.RecordTest | ELM327.py:482-486 | one test sets "TEST" when available and appends " [INCOMPLETE]" when incomplete |
| Decoders.TestStepReference | ELM327.py:482-486 | on a new name, one test adds the entry exactly when available, or raises KeyError when only incomplete |
| Decoders.TestsLabels | ELM327.py:482-567 | a test's label is present exactly when its bit is set, with the status its incomplete bit gives |
| Decoders.RunTestsReference | ELM327.py:482-567 | running the tests is adding the reference record, or KeyError when a test is incomplete but not available |
| Decoders.LabelsDistinct | ELM327.py:476-567 | the labels of each test family differ from each other and from the header entries |
| Decoders.CommonTestsReference | ELM327.py:482-493 | the MISSFIRE, FUEL SYSTEM and COMPONENTS tests of byte B give the reference record |
| Decoders.CommonEntriesApart | ELM327.py:494-567 | "IGNITION" and the family labels are not among the common entries |
| Decoders.FamilyReference | ELM327.py:494-567 | bit 3 of B picks the compression or spark family, whose eight tests of C and D give the reference record |
| Decoders.MonitorStatusReference | ELM327.py:467-572 | on four bytes, the record is MIL from bit 7 of A, the count from its low 7 bits, and every test present exactly when available; KeyError exactly on an orphan test |
| Decoders.MonitorStatusShortReply | ELM327.py:498 | a two-byte reply raises ValueError at byte C, or KeyError before it |
| Decoders.MonitorStatus | ELM327.py:475-568 | the method computes the monitor-status record or its exception |
| Decoders.RecordCommonTests | ELM327.py:482-493 | the three common tests are recorded as the reference says |
| Decoders.RecordFamilyTests | ELM327.py:498-567 | the eight family tests are recorded as the reference says |
| Decoders.RecordFourTests | ELM327.py:498-567 | four consecutive tests are recorded as the reference says |
| Decoders.LookupMissRaises | ELM327.py:795-798 | a secondary-air or OBD-standard value missing from its table raises NameError |
| Decoders.FuelSystemMissRaises | ELM327.py:590-597 | a fuel-system code missing from the table raises NameError |
| Decoders.CoolantDecoded | ELM327.py:626 | the dispatch decodes the coolant byte to its temperature |
| Decoders.TextDecoded | ELM327.py:1334 | the dispatch decodes vehicle text to the spaced text |
| Engine.PidFunctionsShape | ELM327.py:47 | every data handler asks for the PID it is registered under, and every bitmap handler registers under a two-digit mode |
| Engine.LaterRegistrationWins | ELM327.py:1309-1442 | the later definitions of 0901, 0903, 0905, 0907 and 0909 replace the `:TODO:` placeholders, while 0908 stays a placeholder |
| Engine.FuelSystemHandler | ELM327.py:602 | PID 0103 is the fuel-system decoder with two echo bytes |
| Engine.CoolantHandler | ELM327.py:629 | PID 0105 is the coolant decoder |
| Engine.LookupHandlers | ELM327.py:801 | PIDs 0112 and 011C are the table lookups |
| Engine.TroubleCodeHandlers | ELM327.py:1215-1217 | services 03 and 07 are the trouble-code lists |
| Engine.VehicleTextHandlers | ELM327.py:1328-1337 | PIDs 0902, 0904 and 090A are the vehicle-text decoder with three echo bytes |
| Engine.DoPIDNotImplemented | ELM327.py:349-359 | a PID with no handler answers `!NOT IMPLEMENTED!` and sends nothing |
| Engine.UnsupportedPidNoData | ELM327.py:620-628 | a data PID the ECU does not support answers `N/A` and sends nothing |
| Engine.DataPidAnswer | ELM327.py:349-359 | a supported data PID sends its request and answers its decoded reply, or `!ERROR!` |
| Engine.DataRaises | ELM327.py:354-356 | a decoder that raises makes DoPID answer `!ERROR!` |
| Engine.DataReads | ELM327.py:349-359 | a decoder that succeeds gives DoPID's answer |
| Engine.BitmapKeeps | ELM327.py:459-463 | a bitmap PID sends one request and keeps every valid PID and the short keys' values |
| Engine.RunKeeps | ELM327.py:349-359 | running a handler keeps every valid PID and writes at most one request |
| Engine.DoPIDKeepsPids | ELM327.py:349-359 | DoPID keeps every valid PID and writes at most one request |
| Engine.LookupMissIsError | ELM327.py:795-798 | a secondary-air or OBD-standard value missing from its table makes DoPID answer `!ERROR!` |
| Engine.FuelSystemMissIsError | ELM327.py:590-597 | a missing fuel-system code makes DoPID answer `!ERROR!` |
| Engine.UndescribedCodeIsError | ELM327.py:430-434 | a trouble code without a description makes DoPID answer `!ERROR!` |
| Engine.CoolantReply | ELM327.py:620-626 | a coolant reply with its two-byte echo prunes to the temperature byte |
| Engine.CoolantReading | ELM327.py:620-629 | DoPID("0105") on such a reply answers the temperature |
| Engine.VehicleTextReply | ELM327.py:1328-1334 | a vehicle-text reply with its three-byte echo prunes to the text bytes |
| Engine.VehicleTextReading | ELM327.py:1328-1337 | DoPID on such a reply answers the spaced text |
| Engine.StepKeeps | ELM327.py:309-332 | each Connect step keeps every valid PID and every fixed entry |
| Engine.StepsFromKeeps | ELM327.py:309-332 | the remaining Connect steps keep every valid PID and every fixed entry |
| Engine.ResolverRunsIfRegistered | ELM327.py:312-326 | a further mode 01 block sends its request exactly when its PID is valid |
| Engine.GuardIsPreviousTop | ELM327.py:312-326 | each guard key is the last PID the previous block covers |
| Engine.BitmapRegistersNext | ELM327.py:309-326 | a four-byte bitmap makes the next guard valid exactly when its last bit is set |
| Engine.NextResolverFollowsBit | ELM327.py:309-326 | the next block is requested exactly when the previous bitmap's last bit is set |
| Engine.AlwaysStepsRun | ELM327.py:327-330 | a Connect that succeeds has requested the mode 05 and mode 09 bitmaps |
| Engine.ConnectRefused | ELM327.py:296-300 | Connect answers False exactly on an `UNABLE TO CONNECT` reply, having sent only its test request |
| Engine.ConnectKeepsPids | ELM327.py:302-307 | Connect keeps every valid PID and, when it succeeds, holds the three fixed entries |
| Engine.Elm327.constructor | ELM327.py:51-53 | a new engine has no valid PIDs and has sent nothing |
| Engine.Elm327.GetResponse | ELM327.py:372-380 | the request is logged and the result is the normalised reply |
| Engine.Elm327.ResolvePidData | ELM327.py:388-400 | the loop leaves the valid-PID table the walk specifies and returns None, NameError or the parse error |
| Engine.Elm327.RunBitmap | ELM327.py:459-463 | a bitmap PID changes the state as the bitmap step specifies |
| Engine.Elm327.RunData | ELM327.py:620-629 | a data PID changes the state as its handler specifies |
| Engine.Elm327.GetTroubleCodeData | ELM327.py:425-435 | the trouble-code list changes the state as its handler specifies |
| Engine.Elm327.Run | ELM327.py:352-353 | running any handler changes the state as the handler specifies |
| Engine.Elm327.DoPID | ELM327.py:349-359 | DoPID's answer and new state are those `DoPIDOf` specifies |
| Engine.Elm327.RunIfSupported | ELM327.py:312-326 | a guarded block runs only when its PID is valid |
| Engine.Elm327.Connect | ELM327.py:290-334 | Connect's result and new state are those `ConnectOf` specifies |

## Left out

- Loading the lookup tables from text files (ELM327.py:58-168): the tables are a parameter (`Decoders.Tables`).
- Opening and configuring the serial port, the AT initialisation, `Close`, `GetInfo`, `IsELM327Present` and `GetInitResult` (ELM327.py:173-281): serial I/O, outside the engine's logic.
- The settle delay in `Connect` (ELM327.py:294) and the error printout in `DoPID` (ELM327.py:356): timing and logging only.
- `GetValidPIDs` (ELM327.py:341-342) returns the table; the model reads the `validPids` field.
- `PID04` and `PID0102` send a request and return the normalised reply (the `Raw` handler); clearing codes in the ECU is not modelled.
- Engine.Elm327.GetResponse: a serial read timeout is not modelled; the device is required to end every reply with a prompt.
- Engine.Elm327.GetResponse: bytes the adapter sends after the prompt are never read, and the model does not carry them over to the next request.
- Engine.ConnectRefused: closing the port on a refused connection (ELM327.py:300) and later reads on a closed port are not modelled.
- Engine.ConnectKeepsPids: states the values of the three fixed entries only. Other keys are kept, but a later walk may relabel them, and the lemma does not follow their values.
- PyStr.ParseHex: accepts only plain hex digits, while Python's `int(s, 16)` also accepts surrounding whitespace, a sign, a `0x` prefix and underscores; the replies the engine parses are plain hex.
- PyStr.ParseDec: accepts only plain decimal digits, with the same narrowing of Python's `int(s)`.
- Decoders.DecodeText: decoding assumes ASCII; UTF-8 multi-byte characters raise `UnicodeDecodeError` in the model where Python would decode them.
- Floating-point rounding of the decoders is not modelled: their results are exact reals. The float halving at ELM327.py:399 is modelled in `Registry.FloatHalf` for the finding below, and the engine does not use it.
- Engine.Elm327.ResolvePidData, Registry.ResolvePids: follow the corrected integer halving of the ELM327.py:399 finding, so on a bitmap with more than 53 significant bits they differ from the code as written (for `80000000000002` from `00` they register `0137`, which the code does not); the code as written is `Registry.WalkAsWritten`.
- The `self.*` scratch attributes the handlers use (`self.Response`, `self.Result`, `self.ResultArray`, …) are locals in the model. Their leftover values are never read by the engine.
- `PidFunctions` is built as one dictionary filled in class-body order. The model writes it as the union of four groups (mode 01, extended mode 01, trouble codes, mode 09), with later groups winning, as the later definitions do (`Engine.LaterRegistrationWins`).

## Findings

| source | as written | input that shows it | evidently intended | confidence | as-written member | corrected member |
|---|---|---|---|---|---|---|
| ELM327.py:399 | `self.PidValue = int(self.PidValue / 2)` halves through a float, which rounds once the value needs more than 53 bits | a bitmap reply pruned to `80000000000002` (14 hex digits, 2^55 + 2, as when the lines of two ECUs are joined) with start `00`: the float quotient rounds 2^54 + 1 down to 2^54, the set bit for PID `0137` is lost and `0137` is never registered. The quotient can also round up: from `FFFFFFFFFFFFFF` (56 set bits) with start `00` the first quotient 2^55 − 1/2 rounds to 2^55, so the walk registers `0138` and then `0100`, which is not announced, and none of `0101`-`0137` | integer halving (`//`), which registers every PID whose bit is set | not executed | Registry.WalkAsWrittenLosesPid | Registry.ResolveRegistersAnnounced |
