# RS485 bus monitor: protocol engine in Dafny

This project models the protocol engine of an RS485 bus monitor for an
electric scooter, and proves properties of that model. The engine has four
parts:

- **Frame synchronizer** (`FrameParser`, from `TelegramParser.cs`). A
  three-state byte machine over a 32-byte buffer. It cuts a byte stream into
  frames at start-marker pairs: first byte 0xB6 or 0xC5, then second byte
  0x6B or 0x5C. A frame is handed on only when the next marker pair is seen.
- **Telegram decoder** (`Telegrams`, from `BaseTelegram.cs`). It reads the
  start pair, source, destination, length, the PDU (the payload bytes),
  checksum and end tag. It also checks the XOR checksum and renders the raw
  bytes in hex.
- **Typed decoders**. Each one checks the PDU length exactly and then reads
  fields at fixed PDU offsets:
  - `Battery` and `LegacyBattery`: the two battery status versions;
  - `Ecu` and `LegacyEcu`: the two ECU status versions;
  - `Gsm`: the GSM status.
- **Replay sequencer and telegram table**:
  - `Player`, from `src/Utils/TelegramPlayer.cs`: its timer tick is an
    explicit `Tick`.
  - `Printer`, from `src/Utils/ConsolePrinter.cs`: the per-key table of
    counts and latest telegrams, and the print state.

Shared modules:

- `Bytes`: the byte type, big-endian `UInt16`, the `sbyte` cast and the XOR
  fold.
- `Text`: `int.ToString()`, the `d2` and `X2` formats and `bool.ToString()`.
- `Wrappers`: the `Result` and `Option` types.

How exceptions and events are modelled:

- A constructor that throws returns a `Failure` carrying the exception:
  - `InvalidArgument(message)` for the decoders' own `ArgumentException`s;
  - `CopyTooShort` for the `ArgumentException` of `Array.Copy`;
  - `IndexOutOfRange` for an out-of-range array read.
- An array write past the end (the synchronizer's buffer) or read past the end
  (the player's list) becomes an `IndexFault` outcome.
- Events are modelled by what they carry:
  - the frames of `NewTelegram`, in order;
  - the telegrams handed to `TelegramReceived`;
  - a count of `PlaybackFinished` raises.

The three classes whose source changes fields in place are Dafny classes:
`FrameParser.TelegramParser` (over an `array`), `Player.TelegramPlayer` and
`Printer.ConsolePrinter`. Each method is proved equal to a value-level
function, for example `Transition`, `Elapsed` or `Accept`. The properties are
proved about those functions. `PrintTelegram` draws the screen itself when the
refresh timer is stopped (src/Utils/ConsolePrinter.cs:145-149), and so it
leaves the state `EMPTY` in that case, not `PRINT_REQUIRED`. `Printer.Accept`
states both cases.

Where the tests say otherwise than the code, the model follows the code:

- `tests/BaseTelegramTest.cs` targets a newer `BaseTelegram` that is not part
  of this model. That version has a different field order, explicit
  too-short and end-tag errors, and a detailed message for the length error.
- The lemmas `TestFrameDecodes`, `TooShortFrame`, `InvalidLengthFrame` and
  `MissingEndTagFrame` state what this version does with the same frames.
- The tests name `BatteryResponse` and `ControllerResponse`, which are not part
  of this model. Their frames serve as vectors for the decoders with the same
  layout.

## Model

| member | source | states |
|---|---|---|
| Bytes.U16 | src/Telegrams/ECUStatus.cs:27-28 | `(hi << 8) + lo` of two bytes is below 2^16 and its high and low bytes are `hi` and `lo`, so nothing is lost to the `UInt16` cast |
| Bytes.U16Injective | src/Telegrams/ECUStatus.cs:27-28 | two byte pairs with the same `UInt16` value are the same pair |
| Bytes.Signed | src/Telegrams/BatteryStatus.cs:102 | the `(sbyte)` cast lies in [-128, 127], agrees with the byte modulo 256, and is non-negative exactly for bytes below 0x80 |
| Bytes.SignedUnique | src/Telegrams/BatteryStatus.cs:102 | the signed reading is the only value in [-128, 127] congruent to the byte |
| Bytes.XorFoldUpdate | BaseTelegram.cs:100-104 | changing one input byte of the XOR fold changes the result by XOR with the old and the new byte |
| Bytes.XorFoldAppend | BaseTelegram.cs:100-104 | the XOR fold over a concatenation is the fold over the second part started from the fold over the first |
| Text.Decimal | src/Telegrams/ECUStatus.cs:55 | `int.ToString()`: only digits, no leading zero, its digit value is the number, and it is one character long exactly for numbers below 10 |
| Text.Decimal2 | src/Telegrams/GSMStatus.cs:45 | the `d2` format: at least two digits denoting the number, exactly two below 100, no padding from 10 on |
| Text.HexDigitValue | BaseTelegram.cs:132 | every hex digit reads back to its value |
| Text.HexDumpAt | BaseTelegram.cs:131-132 | characters `3i .. 3i+3` of the rendering are byte `i` in `X2` followed by a space |
| Text.HexDumpRoundTrip | BaseTelegram.cs:127-135 | the hex rendering can be read back to the original bytes |
| Text.HexDumpAppend | BaseTelegram.cs:131-132 | rendering one more byte appends its two digits and a space |
| Text.HexDumpInjective | BaseTelegram.cs:127-135 | different byte sequences render differently |
| Telegrams.Parse | BaseTelegram.cs:80-124 | construction succeeds exactly when the length byte is at most 32 and the input holds the PDU and the checksum; a length above 32 is exactly the `"Invalid data len"` failure; the telegram keeps the input as `Raw`, a two-byte start and a PDU of the length byte's size |
| Telegrams.ParseLayout | BaseTelegram.cs:82-106 | the input is start, source, destination, length, PDU and checksum, in that order, followed by the rest; `IsValid` holds exactly when the checksum equals the XOR of the length and every PDU byte |
| Telegrams.ZeroTelegram | BaseTelegram.cs:80-124 | for every length up to 32 there is a telegram the constructor produces from its own raw bytes with a PDU of that length |
| Telegrams.ParseFrame | BaseTelegram.cs:80-124 | a frame built from any start, source, destination and PDU of at most 32 bytes, with its XOR checksum and end tag, decodes to exactly those fields, valid, with the end tag present |
| Telegrams.EndTagIgnored | BaseTelegram.cs:108-119 | bytes after the checksum, the end tag included, never change the decoded fields or validity |
| Telegrams.EndTag | BaseTelegram.cs:108-119 | the end-tag check only classifies the byte after the checksum as present, wrong or missing; it has no contract of its own, and `ParseFrame`, `MissingEndTagFrame` and `EndTagIgnored` state that it never decides construction |
| Telegrams.ByteChange | BaseTelegram.cs:93-106 | replacing one PDU byte in the input changes only that PDU byte, keeps start, source, destination and checksum, and re-decides validity |
| Telegrams.SingleByteChangeDetected | BaseTelegram.cs:99-106 | changing one PDU byte of a valid frame to another value leaves it constructible but not valid |
| Telegrams.CopyIsIdentity | BaseTelegram.cs:74-78 | the copy constructor re-parses `Raw` and gives back every field of the original |
| Telegrams.Copy | BaseTelegram.cs:74-78 | a telegram that the byte-array constructor produced from any input is given back unchanged by the copy constructor `this(c.Raw)` |
| Telegrams.Specialize | src/Telegrams/ECUStatus.cs:39-46 | the typed constructors' `base(t)` followed by the length check: success exactly for the given PDU size, with the same telegram, and otherwise the `ArgumentException` message given |
| Telegrams.PduAt | BaseTelegram.cs:93-94 | PDU byte `i` is raw byte `5 + i` |
| Telegrams.ToString | BaseTelegram.cs:127-135 | the rendering is three characters per raw byte and reads back to `Raw` |
| Telegrams.CalcChecksum | BaseTelegram.cs:100-104 | the `foreach` loop computes the XOR of the length byte and every PDU byte |
| Telegrams.RenderHex | BaseTelegram.cs:129-134 | the `StringBuilder` loop builds the hex rendering of the raw bytes |
| Telegrams.TestPduChecksum | tests/BaseTelegramTest.cs:9 | the test frame's PDU and length XOR to its checksum 0x1C |
| Telegrams.TestFrameDecodes | tests/BaseTelegramTest.cs:9-16 | the valid test frame decodes as valid, with checksum 0x1C and its end tag, but with source 0xAA and destination 0xDA, the reverse of what the test expects of the newer version |
| Telegrams.WrongChecksumFrame | tests/BaseTelegramTest.cs:35-42 | the frame with PDU byte 1 changed still decodes, and is not valid |
| Telegrams.TooShortFrame | tests/BaseTelegramTest.cs:48-51 | a three-byte input fails with an index error, not with a "too short" message |
| Telegrams.InvalidLengthFrame | tests/BaseTelegramTest.cs:57-60 | length byte 33 fails with `"Invalid data len"` |
| Telegrams.MissingEndTagFrame | tests/BaseTelegramTest.cs:66-69 | without its end tag the test frame is still constructed and valid; the end-tag check reports it missing |
| FrameParser.Restart | TelegramParser.cs:61-64 | the new buffer keeps the buffer size and holds the marker pair first |
| FrameParser.InitInv | TelegramParser.cs:15-20 | a new parser satisfies the invariant and has nothing buffered |
| FrameParser.Transition | TelegramParser.cs:38-91 | the `switch` body on one byte, as a function of the fields; no contract of its own: `NoBlockDiscards`, `BoundaryConfirmed`, `TransitionInv`, `FaultIff`, `NeverBackToNoBlock` and `TransitionNoLoss` state what it does |
| FrameParser.NoBlockDiscards | TelegramParser.cs:40-46 | outside a block every byte other than 0xB6 and 0xC5 is dropped and the fields stay unchanged |
| FrameParser.BoundaryConfirmed | TelegramParser.cs:48-67 | any second start byte after any first start byte confirms a boundary. With earlier bytes buffered, exactly those bytes up to the new first start byte are emitted and the buffer restarts with the pair at offset 2. With the pair alone, nothing is emitted |
| FrameParser.TransitionInv | TelegramParser.cs:38-91 | every step that does not fault keeps the invariant: a 32-byte buffer, offset 0 outside a block, and a first start byte at the buffer's head inside one |
| FrameParser.FaultIff | TelegramParser.cs:43-81 | on valid fields a byte faults exactly when a block is open and the buffer is full |
| FrameParser.FaultPersists | TelegramParser.cs:43-81 | after a fault the next byte faults too |
| FrameParser.NeverBackToNoBlock | TelegramParser.cs:48-86 | once a block is open no step returns to `NO_BLOCK`; the `offset == 0` branch is unreachable |
| FrameParser.FlattenAppend | TelegramParser.cs:59 | the concatenation of two runs of frames is the concatenation of each |
| FrameParser.TransitionNoLoss | TelegramParser.cs:40-86 | one step loses no byte: the frame it emits followed by the new buffer is the old buffer followed by the byte, unless the byte was dropped outside a block. An emitted frame is 2 to 30 bytes and starts with a first start byte |
| FrameParser.FromFirstStart | TelegramParser.cs:40-46 | what the machine keeps from an input outside a block: the suffix of the input that starts at its first first start byte, with no first start byte before it, and empty when there is none |
| FrameParser.RunAppend | TelegramParser.cs:15-20 | because the state lives in fields, parsing `xs + ys` is parsing `xs` and then `ys` from where it stopped |
| FrameParser.Run | TelegramParser.cs:34-92 | the `while` loop over the input, stopping at the first fault; no contract of its own: `RunInv`, `RunNoLoss`, `RunAppend` and `LastBlockNotEmitted` state what it does |
| FrameParser.RunInv | TelegramParser.cs:34-92 | a run without a fault keeps the invariant, and every frame it emits is 2 to 30 bytes starting with 0xB6 or 0xC5 |
| FrameParser.RunNoLoss | TelegramParser.cs:34-92 | no loss: the emitted frames followed by the buffered bytes are the bytes buffered before followed by the input from its first first start byte on |
| FrameParser.RunStaysInBlock | TelegramParser.cs:48-86 | inside a block the machine stays inside blocks whatever bytes follow |
| FrameParser.RunEntersBlock | TelegramParser.cs:40-46 | outside a block, an input with a first start byte leaves the machine inside a block |
| FrameParser.LastBlockNotEmitted | TelegramParser.cs:34-96 | there is no flush at the end of input: once a block is open, the frames hold strictly fewer bytes than were kept |
| FrameParser.StreamExample | TelegramParser.cs:38-91 | on `00 B6 5C 01 C5 6B 02` the mixed pair opens a frame, `B6 5C 01` is emitted when `C5 6B` arrives, and `C5 6B 02` stays buffered |
| FrameParser.FirstBlockOpened | TelegramParser.cs:40-86 | in that stream, `B6 5C 01` opens a block and is buffered without emitting anything |
| FrameParser.SecondPairEmits | TelegramParser.cs:48-86 | in that stream, `C5 6B 02` emits `B6 5C 01` and leaves `C5 6B 02` buffered |
| FrameParser.TelegramParser.constructor | TelegramParser.cs:15-20 | a new parser is in `NO_BLOCK` with a zeroed 32-byte buffer and offset 0 |
| FrameParser.TelegramParser.Step | TelegramParser.cs:38-91 | the `switch` body on the fields and the array does what `Transition` specifies, including the fault of `data[offset++]` on a full buffer |
| FrameParser.TelegramParser.ParseBytes | TelegramParser.cs:28-96 | the `while` loop over the input emits the frames of `Run` in order and ends in its final fields, stopping at the first fault |
| Battery.ActivityOf | src/Telegrams/BatteryStatus.cs:18-29 | the enum cast keeps the byte, and the value is unnamed exactly for bytes other than 1 and 4 |
| Battery.VBreakerOf | src/Telegrams/BatteryStatus.cs:31-49 | the enum cast keeps the byte, and the value is unnamed exactly for bytes outside {0, 1, 2, 4} |
| Battery.CastsInjective | src/Telegrams/BatteryStatus.cs:106-121 | different bytes give different enum values: nothing is rejected or merged |
| Battery.Decode | src/Telegrams/BatteryStatus.cs:137-144 | construction succeeds exactly for a 10-byte PDU and otherwise fails with `"Unexpected size of <n>"` for the actual length `n` |
| Battery.Temperature | src/Telegrams/BatteryStatus.cs:102 | the temperature is the signed reading of PDU byte 2, in [-128, 127] |
| Battery.Charge | src/Telegrams/BatteryStatus.cs:110 | the current is the signed reading of PDU byte 3, in [-128, 127] |
| Battery.Cycles | src/Telegrams/BatteryStatus.cs:114 | the cycle count is the big-endian `UInt16` of PDU bytes 4 and 5 |
| Battery.VBreaker | src/Telegrams/BatteryStatus.cs:106 | the VBreaker status carries PDU byte 8 unchanged |
| Battery.Activity | src/Telegrams/BatteryStatus.cs:118-121 | the activity carries PDU byte 9 unchanged |
| Battery.IsCharging | src/Telegrams/BatteryStatus.cs:126-129 | charging holds exactly when PDU byte 9 is 1 (CHARGING); 4 and every other value read as not charging |
| Battery.FrameOffsets | src/Telegrams/BatteryStatus.cs:94-129 | the getters read raw bytes 5 to 14 of the frame; source and destination play no part |
| Battery.TestFrameParses | tests/BatteryStatusTest.cs:11-12 | the test frame is constructed with its ten-byte PDU |
| Battery.TestFrameValues | tests/BatteryStatusTest.cs:37-45 | that frame gives voltage 77, SoC 72, temperature 23, charge 0, 35 cycles, VBreaker OK, and no charging |
| Battery.ElevenBytesRefused | tests/BatteryResponseTest.cs:68-74 | an eleven-byte PDU fails with exactly `"Unexpected size of 11"` |
| LegacyBattery.Decode | BatteryStatus.cs:110-117 | construction succeeds exactly for a 10-byte PDU, whatever source and destination; otherwise it fails with `"Unexpected size of <n>"` |
| LegacyBattery.ChargeTenths | BatteryStatus.cs:65-73 | the `double` getter `Charge` (the byte, divided by 10 from 100 on) is exactly one tenth of this integer, so tenths lose nothing; below 100 A it is a whole number of amps, and it stays below 1000 |
| LegacyBattery.Cycles | BatteryStatus.cs:77 | the cycle count is the big-endian `UInt16` of PDU bytes 6 and 7 |
| LegacyBattery.IsCharging | BatteryStatus.cs:81-102 | charging holds exactly when PDU byte 9 is 1; 0 and every other value give false |
| LegacyBattery.FrameOffsets | BatteryStatus.cs:53-102 | voltage, SoC and the unsigned temperature are raw bytes 5, 6 and 7; the charge comes from raw byte 8, cycles from raw bytes 11-12, and charging holds exactly when raw byte 14 is 1 |
| LegacyBattery.DecodeLikeCurrent | BatteryStatus.cs:110-117 | both versions accept the same telegrams and refuse the others with the same message |
| LegacyBattery.AgreesWithCurrent | BatteryStatus.cs:53-102 | on every ten-byte PDU the versions agree on voltage, SoC and charging; on temperature below 128; and, scaled to tenths, on a current below 100 A |
| LegacyBattery.CycleOffsetsDiffer | BatteryStatus.cs:38-42 | the versions read cycles at different offsets: on the battery test frame this one gives 11 and the current one 35 |
| LegacyBattery.ChargeScalingOverlaps | BatteryStatus.cs:65-73 | the scaling makes a raw 10 (10 A) and a raw 100 (10.0 A) indistinguishable |
| Ecu.Decode | src/Telegrams/ECUStatus.cs:39-46 | construction succeeds exactly for a 10-byte PDU and otherwise fails with `"Unexpected size"` |
| Ecu.Current | src/Telegrams/ECUStatus.cs:27 | the current is the big-endian `UInt16` of PDU bytes 1 and 2 |
| Ecu.Speed | src/Telegrams/ECUStatus.cs:28 | the speed is the big-endian `UInt16` of PDU bytes 3 and 4 |
| Ecu.FrameOffsets | src/Telegrams/ECUStatus.cs:26-30 | mode, current, speed and temperature are raw bytes 5, 6-7, 8-9 and 10. Parking holds exactly when raw byte 13 is 2 (PARKING_ON), and PARKING_OFF reads as not parking |
| Ecu.Format | src/Telegrams/ECUStatus.cs:55 | the rendering starts with `"ECU Status: Mode "` and ends with `bool.ToString()` of the parking flag |
| Ecu.ToStringShowsParking | src/Telegrams/ECUStatus.cs:55 | two statuses that differ in parking render differently |
| Ecu.ToString | src/Telegrams/ECUStatus.cs:52-56 | the interpolation over the getters; no contract of its own: `Format` states its prefix and suffix, `ToStringShowsParking` that it tells parking apart, and `LegacyEcu.TestFrameString` the whole string for the test frame |
| Ecu.TestFrameValues | tests/ECUStatusTest.cs:11-12 | the test frame gives mode 2, current 4, speed 0, temperature 0x13, and parking |
| LegacyEcu.Decode | ECUStatus.cs:17-31 | construction succeeds exactly for a 10-byte PDU and otherwise fails with `"Unexpected size"`; current and speed fit their `UInt16` fields |
| LegacyEcu.AgreesWithCurrent | ECUStatus.cs:17-38 | both versions accept the same telegrams with the same error; on every accepted one, the five fields computed once by this constructor equal the getters of the current version, and so do the renderings |
| LegacyEcu.ToString | ECUStatus.cs:34-38 | the interpolation over the stored fields; no contract of its own: `AgreesWithCurrent` states that it equals the current version's rendering and `TestFrameString` the string for the test frame |
| LegacyEcu.TestFrameString | ECUStatus.cs:37 | the ECU test frame renders as `"ECU Status: Mode 2, 4mA, 0km/h, 19°C, Parking: True"` |
| LegacyEcu.FormatExample | ECUStatus.cs:37 | the rendering of those field values, piece by piece |
| Gsm.Decode | src/Telegrams/GSMStatus.cs:29-36 | construction succeeds exactly for a 14-byte PDU, whatever source and destination, and otherwise fails with `"Unexpected size"` |
| Gsm.FrameOffsets | src/Telegrams/GSMStatus.cs:19-20 | hour and minutes are raw bytes 9 and 10 |
| Gsm.ToString | src/Telegrams/GSMStatus.cs:45 | the rendering starts with `"GSM Status: Time "` and has at least 22 characters |
| Gsm.TimeReadBack | src/Telegrams/GSMStatus.cs:45 | for parts below 100, the rendering is exactly `"GSM Status: Time HH:MM"`, and both parts read back from their two digits |
| Gsm.TimeFields | src/Telegrams/GSMStatus.cs:45 | with two-digit parts, hour, colon and minutes sit at positions 17-18, 19 and 20-21 |
| Gsm.TestFrameParses | tests/ECUStatusTest.cs:25-26 | the 21-byte GSM frame is constructed with its 14-byte PDU |
| Gsm.TestFrameValues | tests/ECUStatusTest.cs:25-28 | that frame is a GSM status at 0x16:0x19, and the ECU constructor refuses it with `"Unexpected size"` |
| Gsm.TestFrameString | src/Telegrams/GSMStatus.cs:45 | that frame renders as `"GSM Status: Time 22:25"` |
| Player.Start | src/Utils/TelegramPlayer.cs:21-30 | a new player has an empty list and position -1, with the given interval or 5 by default |
| Player.Added | src/Utils/TelegramPlayer.cs:47-50 | `AddTelegram` appends at the end, leaves earlier entries and every other field unchanged |
| Player.Replay | src/Utils/TelegramPlayer.cs:53-64 | replay fails with `"No eventHandler for TelegramReceived registered"` exactly when no handler is registered, before the timer starts; otherwise it only starts the timer |
| Player.Elapsed | src/Utils/TelegramPlayer.cs:31-44 | one run of the timer handler; no contract of its own: `ElapsedNext`, `EmptyReplayFaults` and `NoSecondReplay` state its cases |
| Player.Play | src/Utils/TelegramPlayer.cs:30-44 | `k` firings of the one-shot timer while the handler keeps restarting it; no contract of its own: `PlayInOrder`, `PlayFinishesOnce`, `PlayStopped` and `PlayAfter` state what it does |
| Player.ElapsedNext | src/Utils/TelegramPlayer.cs:31-44 | one firing within the list hands on the next telegram. It restarts the timer unless that telegram was the last one, and signals completion exactly then |
| Player.PlayInOrder | src/Utils/TelegramPlayer.cs:31-44 | while a replay runs, `k` firings hand on the next `k` telegrams in list order |
| Player.PlayFinishesOnce | src/Utils/TelegramPlayer.cs:35-43 | the firing that reaches the last telegram signals completion and stops; the firings before it restart the timer and signal nothing |
| Player.PlayStopped | src/Utils/TelegramPlayer.cs:30 | a stopped one-shot timer fires no more |
| Player.PlayAfter | src/Utils/TelegramPlayer.cs:31-44 | firing `j + k` times is firing `j` times and then `k` more |
| Player.ReplayPlaysAll | src/Utils/TelegramPlayer.cs:31-64 | a first replay of `n >= 1` telegrams hands each telegram to the handler once, in order, and signals completion exactly once, however many more firings are allowed |
| Player.EmptyReplayFaults | src/Utils/TelegramPlayer.cs:34 | replaying an empty list faults on the first firing, indexing element 0, and never completes |
| Player.NoSecondReplay | src/Utils/TelegramPlayer.cs:10-11 | `position` is never reset: replaying a list that was played to its end faults on the first firing |
| Player.TelegramPlayer.constructor | src/Utils/TelegramPlayer.cs:21-30 | the object starts in the state `Start` describes |
| Player.TelegramPlayer.SetTelegramReceived | src/Utils/TelegramPlayer.cs:17 | registering or removing the handler changes nothing else |
| Player.TelegramPlayer.AddTelegram | src/Utils/TelegramPlayer.cs:47-50 | the list grows as `Added` specifies |
| Player.TelegramPlayer.ReplayTelegrams | src/Utils/TelegramPlayer.cs:53-64 | the handler guard and timer start leave the object as `Replay` specifies, and report the same error |
| Player.TelegramPlayer.Tick | src/Utils/TelegramPlayer.cs:31-44 | one run of the `Elapsed` handler changes the fields and ends as `Elapsed` specifies |
| Printer.KeyInjective | src/Utils/ConsolePrinter.cs:116 | two telegrams share a key exactly when they have the same source and destination: the `UInt16` cast cuts nothing off |
| Printer.Inc | src/Utils/ConsolePrinter.cs:134 | `Count++` on a `uint` is the successor modulo 2^32 |
| Printer.Updated | src/Utils/ConsolePrinter.cs:121-135 | the entry under the telegram's key holds that telegram; a new key counts 1, and a seen key has its count incremented |
| Printer.Record | src/Utils/ConsolePrinter.cs:118-136 | the table gains at most the telegram's key, and every other entry is unchanged |
| Printer.Tally | src/Utils/ConsolePrinter.cs:113-136 | the table after a sequence of `PrintTelegram` calls; no contract of its own: `TallyCounts`, `LatestWins` and `TallyTotal` state its contents |
| Printer.Occurrences | src/Utils/ConsolePrinter.cs:116 | the number of telegrams with a given key, the reference count `TallyCounts` compares each entry with; no contract of its own |
| Printer.TallyCounts | src/Utils/ConsolePrinter.cs:113-136 | after any sequence of calls there is an entry exactly for the keys that occurred. Each entry counts the telegrams with its key modulo 2^32 and holds a telegram with that key |
| Printer.IncMod | src/Utils/ConsolePrinter.cs:134 | incrementing a counter that holds `n` modulo 2^32 makes it hold `n + 1` modulo 2^32 |
| Printer.LatestWins | src/Utils/ConsolePrinter.cs:129-132 | the entry under the latest telegram's key holds that telegram |
| Printer.SumCountsUpdate | src/Utils/ConsolePrinter.cs:118-136 | replacing one entry changes the sum of counts by the difference of its counts |
| Printer.RecordTotal | src/Utils/ConsolePrinter.cs:121-135 | one call adds one to the sum of all counts, modulo 2^32 |
| Printer.TallyTotal | src/Utils/ConsolePrinter.cs:113-136 | the counts add up to the number of `PrintTelegram` calls, modulo 2^32 |
| Printer.EmptySum | src/Utils/ConsolePrinter.cs:71 | an empty table counts nothing |
| Printer.Init | src/Utils/ConsolePrinter.cs:69-99 | a new printer has an empty table, state EMPTY and the refresh timer running |
| Printer.Redraw | src/Utils/ConsolePrinter.cs:169-203 | `PrintScreen` draws the table and returns to EMPTY only in PRINT_REQUIRED, and otherwise changes nothing |
| Printer.Accept | src/Utils/ConsolePrinter.cs:113-150 | `PrintTelegram` records the telegram and the refresh timer runs afterwards. With the timer running, the state becomes PRINT_REQUIRED and the screen is unchanged. With it stopped, the table is drawn at once, the state is EMPTY and the timer is started |
| Printer.OnRefresh | src/Utils/ConsolePrinter.cs:79-92 | the refresh handler draws a pending table, leaves EMPTY and restarts the timer |
| Printer.Flush | src/Utils/ConsolePrinter.cs:156-164 | `FlushAndStopTimer` draws only in PRINT_REQUIRED, stops the timer and leaves EMPTY |
| Printer.InvPreserved | src/Utils/ConsolePrinter.cs:69-203 | every operation keeps "EMPTY means the screen shows the whole table" |
| Printer.FlushShowsAll | src/Utils/ConsolePrinter.cs:156-164 | after `FlushAndStopTimer` the screen shows every telegram received |
| Printer.FeedTallies | src/Utils/ConsolePrinter.cs:113-150 | the table of a fresh printer after any sequence of calls is the tally of those telegrams; a non-empty sequence leaves PRINT_REQUIRED |
| Printer.Feed | src/Utils/ConsolePrinter.cs:113-150 | a sequence of `PrintTelegram` calls on the whole printer state; no contract of its own: `FeedTallies` and `FeedKeepsTimer` state what it leaves |
| Printer.FeedKeepsTimer | src/Utils/ConsolePrinter.cs:144-149 | the refresh timer of a fresh printer stays enabled while telegrams arrive |
| Printer.ConsolePrinter.constructor | src/Utils/ConsolePrinter.cs:69-99 | the object starts as `Init` describes |
| Printer.ConsolePrinter.PrintTelegram | src/Utils/ConsolePrinter.cs:113-150 | the in-place dictionary update and state change end as `Accept` specifies |
| Printer.ConsolePrinter.PrintScreen | src/Utils/ConsolePrinter.cs:169-203 | ends as `Redraw` specifies |
| Printer.ConsolePrinter.Refresh | src/Utils/ConsolePrinter.cs:79-92 | ends as `OnRefresh` specifies |
| Printer.ConsolePrinter.FlushAndStopTimer | src/Utils/ConsolePrinter.cs:156-164 | ends as `Flush` specifies |

## Left out

- File and serial I/O: `ParseFile` opens a file; the model takes the file's
  bytes as a sequence. The serial monitor, simulator, entry points,
  configuration and command-line parsing are not part of this model.
- The `uint` type of the synchronizer's `offset` is modelled as `nat`.
  `offset` never exceeds 33 before the loop stops at a fault, so no wrap can
  happen.
- An exception ends `ParseFile` (the synchronizer) or the timer callback (the
  player). The model records it as an `IndexFault` outcome; the player's
  timer is then left stopped.
- Timers, the `lock`, `Task.Run` and concurrency. The timers become explicit
  calls (`Tick`, `Refresh`). The `SemaphoreSlim` signal and the
  `PlaybackFinished` event are one counter, so the model does not capture
  the semaphore's maximum count of 1 on a second release.
- Logging (NLog): the checksum debug line, the end-tag warnings and the trace
  lines have no effect on results. `EndTag` names the diagnostic that would be
  logged.
- Console drawing in `ConsolePrinter` (cursor handling, header,
  `ToStringDetailed`) is modelled by the table the screen last showed.
- `TelegramInfo` is a class in the source and its entry is updated in place.
  It is a value here, and the `Equals` test of an existing entry's telegram
  is value equality of the decoded fields. Because the telegram is replaced
  whenever it differs, the entry holds `tg` afterwards in either case.
- Floating point: the older battery's `double` `Charge` is modelled in integer
  tenths of an amp (`ChargeTenths`). The player's `double` interval is a
  `real` with no rounding.
- The `ToString` of both battery status versions is not modelled. It needs
  `sbyte` and enum names rendered as text. The current ECU `ToString` is the
  same interpolation as the older one's and shares `Ecu.Format`.
- Telegrams.ToString: the whole test string of tests/BaseTelegramTest.cs:79
  is not evaluated; the contract states the length and the read-back instead.
- Ecu.Format: the contract states the prefix and the parking suffix. The full
  rendering is stated for the test frame by `LegacyEcu.FormatExample`.
- Printer.TallyTotal: states the total modulo 2^32, because each counter is a
  `uint` that wraps.
- Player: the elapsed handler's event argument (`TelegramArgs`) is the
  telegram itself.
- The getters that only read one PDU byte (`Voltage`, `SoC`, `Mode`,
  `Temperature`, `Parking`, `Hour`, `Minutes`) carry no contract of their
  own. Their offsets are stated by each module's `FrameOffsets` lemma.
