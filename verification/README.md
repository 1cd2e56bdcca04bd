# netevent, modelled and proved

netevent shares Linux event devices between machines. A daemon reads input devices and writes a
self-delimiting byte stream to its outputs; `netevent create` reads such a stream and recreates the
devices through uinput. This project models both ends, the protocol between them, the command
language of the daemon and the packed bit arrays underneath, and proves what holds of them for
every input, every byte stream and every run.

## How the model is built

| file | models |
|---|---|
| `Bytes.dfy`, `Stream.dfy` | integers as bytes in network order; a file descriptor read in arbitrary chunks, and `mustRead` |
| `Bits.dfy` | the class `Bits` over a byte array, and the list of booleans it stands for |
| `Devices.dfy` | what the kernel answers about an input device; a uinput device as the requests it was given |
| `AddDevice.dfy` | the netevent 2 device description: its bytes, and creating or skipping one |
| `Legacy.dfy` | the netevent 1 header, with its own sizes and host byte order |
| `Wire.dfy`, `Refusals.dfy` | the same bytes as numbers at their places; what a receiver makes of bytes nobody sends |
| `InDevice.dfy`, `OutDevice.dfy` | the writer and the readers as the loops over buffers they are |
| `Protocol.dfy`, `Receiver.dfy`, `Create.dfy` | packets and messages; the packet loop on arbitrary bytes; the loop itself |
| `Tokenizer.dfy`, `Characters.dfy`, `Replay.dfy` | the command tokenizer; what single characters do in it; storing a command text and replaying it |
| `Numbers.dfy`, `Definitions.dfy` | numbers and hotkey specifications; their digits, signs, type names and ranges |
| `DaemonState.dfy` | the daemon as a value, every operation and phase of its main loop as a function |
| `Daemon.dfy` | the daemon as a class whose methods update its fields, each equal to its function |
| `DaemonWords.dfy`, `DaemonCommands.dfy` | the spellings of the commands; what each of them does, said of the entry it names and of everything else |
| `DaemonEvents.dfy`, `DaemonFailures.dfy` | what becomes of events, hotkeys and the chosen output; descriptors that fail, and that they are released |
| `DaemonUpkeep.dfy` | what is polled, the order of the tables, and broken outputs, in every run |
| `DaemonInvariant.dfy`, `DaemonSync.dfy` | what every run keeps; device ids and what a stream says of them |
| `DaemonEffects.dfy`, `DaemonHeard.dfy`, `DaemonStreams.dfy` | what each operation does to the tables; which ids the receivers hold after it; what it tells every output of each input |
| `DaemonEndToEnd.dfy`, `DaemonRuns.dfy` | daemon and receivers over whole runs, with the exact guards; runs that meet them |
| `DaemonRejected.dfy`, `DaemonCollision.dfy` | what follows in a run that does not meet them; such a run |

Code that changes things step by step is modelled by methods and classes, each proved equal to a
function of its input or of the old state; the properties are then proved of those functions. The
operating system is a value of type `World`, which answers every open, read, write and poll, and
nothing is assumed about its answers except that it does not hand out a descriptor that is open, and
that during the removal drain a write fails only for an output that is itself being removed.

Each operation is also tied to something said without it: commands to their spellings and to the entry
with the name they are given, events to the hotkeys and the output that was chosen, failures to what is
released, characters, digits and packed bits to their numbers, packets and descriptions to the numbers at
their places.

## What the proofs found

* **A completed device removal loses the id.** `finishDeviceRemoval` never calls `freeInputID`
  (src/daemon.cpp:342-355); only the failed add does (src/daemon.cpp:528-530). The id tables stay in
  order along a run if and only if every released input gives its id back or has the greatest
  (`IdsAlongRun`, `DropOk`). Otherwise one more input than there are free ids is given an id that is
  live (`RemovalLeavesStale`, `CollisionFollows`), and the receiver behind every output that hears of
  it ends with the duplicate error (`BadAddRejected`). `FourStepCollision` is a run of three turns that
  does so with four device commands. The field `World.frees` says whether removal gives the id back.
* **What end to end needs.** The receivers behind all working outputs hold exactly the live ids after
  every command and every release of a run if and only if every `device add` that some output hears of
  is given an id that is not live and a name with a NUL, no output is told of two inputs with one id,
  and every removal takes away what the outputs were told (`RunExact` with the guards `HeardCommand`
  and `HeardRelease`). Then every receiver accepts what its output was sent (`EndToEnd`); under slightly
  stronger guards, exact as well, its devices mirror the inputs (`EndToEndMirrored`). The first `device add`
  that fails its guard is heard of by some output, and each receiver that hears of it is lost until its
  output is released (`FirstBadAdd`). With ids given back the guards hold in all runs that drain no
  persistent input (`EndToEndWhenFreed`), as written in all that complete no input removal
  (`EndToEndWithoutRemoval`).
* **Resuming receivers need less.** A persistent input's removal is never announced, and an output that
  is added again announces what its receiver may hold already. A resuming receiver follows both, in
  every run whose `device add`s are given ids that are not live and names with a NUL: it gets all routed
  events, holds at least the live ids, and keeps the devices it was not told to remove, with the
  description they were first announced with (`EndToEndResuming`, `HeldKept`).
* **What a turn leaves behind.** In every run, whenever the daemon waits, exactly the registered descriptors
  that are no outputs are polled, each once, in the order they came; no output is broken; nothing waits
  for removal; the tables are in the order of the names (`EveryTurnSettles`, `PolledInOrder`). What then
  fails is released before it waits again (`PollsQueue`, `QueuedIsReleased`, `FailedIsReleased`).
* **A hotkey from its text to its effect.** Typing `hotkey add` with commands separated by `\;`, and then a
  matching event of that device, executes exactly those commands (`HotkeyEndToEnd`).
* **Skipping accepts what creating refuses, in one case.** Creating a device refuses a name of 80
  bytes without a NUL (src/writer.cpp:37-38), skipping does not look at it. On every byte stream the
  two readers agree exactly when the name has its terminator (`SkipCreateAligned`), and the writer
  can send one without (`SkipCreatePart`). So the round trip holds for terminated names and only
  for them (`AddRoundTrip`, `HeaderRoundTrip`).
* **`show` and hotkeys agree up to type 5.** `EV2String` indexes the name table by position
  (src/main.h:256-262), and from LED on the positions are not the numbers of the types. What
  `show` prints is read back as the same event if and only if the type is at most 5
  (`ShowRoundTrip`), for every code and value.
* **netevent 1 cuts each last code.** A code equal to its type's maximum, and the axis ABS_MAX, is
  sent but never applied (`LegacyMirrorExact`).
* **A quoted string cannot contain its own quote**, since the closing quote is looked for before
  the escape (src/daemon.cpp:784). `Expressiveness` says exactly which argument lists have a text.
* **`Bits::resize` zeroes whole bytes only**, so stale bits of a partly used last byte come back
  when the array grows (`BitField.Bits.Resize`, `ResizedBools`).

Where the documentation and the code differ, the code is modelled. The manual says

* that hotkeys take what `show` prints (doc/netevent.rst:184-188), which fails above type 5 (`ShowRoundTrip`);
* that a fallback output is activated when the current one fails (doc/netevent.rst:122-124): the code never
  selects one, it leaves none current and switches writing off, on removal (`NoFallback`) and on a
  failed write (`FailedWriteLosesCurrent`);
* that parameters are joined with a space (doc/netevent.rst:115-118): they are if and only if there are
  fewer than two or the first is not empty (`JoinIsSpaced`); `JoinDropsSpace` is an input on which
  they are not.

## Model

| member | source | states |
|---|---|---|
| `Streams.Stream.MustRead` | src/utils.h:33-55 | However `read` chunks the bytes, the buffer ends up with the next `length` bytes of the stream and the rest of the buffer is untouched; failure is exactly end of file before that |
| `BitField.Switch` | src/bitfield.h:167-178 | Or-ing with a one-bit mask, or and-ing with its complement, sets or clears the named bit of a byte and leave every other bit |
| `BitField.Bits.Put` | src/bitfield.h:167-178 | Assigning through the accessor changes exactly the named boolean; its byte grows or shrinks by `1 << (i % 8)` when the boolean changes, and every other byte stays |
| `BitField.ByteIsSum` | src/bitfield.h:156-175 | Each byte is the sum of what its eight booleans are worth: the first counts 1, the last 128 |
| `BitField.BitIsDigit` | src/bitfield.h:156-175 | Bit `k` of a byte is the binary digit that counts `1 << k` |
| `BitField.Bits.Iterate` | src/bitfield.h:180-224 | Walking from `begin` to `end` visits the indices below the size in order and reports the set ones; their worths add up to the bytes |
| `BitField.IndicesAreBytes` | src/bitfield.h:151-206 | What the indices reported for a byte are worth, `1 << (i % 8)` each, adds up to that byte |
| `BitField.SetIndicesExact` | src/bitfield.h:151-206 | The reported indices are exactly the set bits below the size, each once, in increasing order |
| `BitField.Bits.Resize` | src/bitfield.cpp:17-36 | The bytes of the common prefix are kept and every added whole byte is zero; nothing else of the last old byte is cleared |
| `BitField.ResizedBools` | src/bitfield.cpp:27-35 | After growing, a bit is set exactly when it lies in a kept byte and was set there, even above the old count |
| `BitField.Bits.Dup` | src/bitfield.h:236-242 | A copy has its own bytes, the same count and the same booleans |
| `BitField.Bits.ShrinkTo` | src/bitfield.h:125-130 | Shrinking only lowers the count: the booleans become a prefix of the old ones |
| `BitField.Bits.SetBitCount` | src/bitfield.h:132-137 | A count inside the allocation only changes how much of it is read |
| `BitField.NE1SizeAgrees` | src/bitfield.h:99-123 | `(n+7)/8` and `1+n/8` agree exactly when 8 does not divide `n`, and a netevent 1 array fills its bytes exactly |
| `Devices.EventCallsExact` | src/writer.cpp:329-333 | The event bits enabled are exactly the set ones below the maximum, without force feedback |
| `Devices.CodeCallsExact` | src/writer.cpp:352-361 | The codes enabled for a type are exactly those whose bit was set |
| `Devices.AxisCallsExact` | src/writer.cpp:375-391 | The axes set up are exactly those whose ABS bit was set, each with its own record |
| `Devices.Renamed` | src/reader.cpp:116-126 | A name that leaves no room for its NUL is refused; an accepted one is followed by zeros to the end of the buffer, and nothing else of the device changes |
| `InDevices.InDevice.SetName` | src/reader.cpp:116-126 | The in-place buffer ends up as the renamed device says, or untouched when refused |
| `InDevices.InDevice.ResetName` | src/reader.cpp:128-132 | The name found when the device was opened comes back, unless it fills the whole buffer, which is refused |
| `InDevices.InDevice.WriteNE2AddDevice` | src/reader.cpp:221-333 | With one reused bitmap buffer, the loops write exactly the packet and body of the description |
| `InDevices.InDevice.QueryCodes` | src/reader.cpp:278-287 | Inside the large buffer, the counted bytes are the bitmap the kernel reports for this type, without leftovers of the previous one |
| `InDevices.InDevice.WriteSections` | src/reader.cpp:268-298 | One count and bitmap for each set type in the table, in order; the kept copy is the bitmap of the axes |
| `InDevices.InDevice.WriteAxes` | src/reader.cpp:300-324 | One big-endian record for each set axis bit, in order |
| `OutDevices.NewFromNE2AddCommand` | src/writer.cpp:279-420 | The reads into buffers and reused bit arrays compute exactly the specified reader, for both values of `skip`, on every byte stream |
| `OutDevices.ReadTypeSections` | src/writer.cpp:335-365 | The section loop with its reused `entrybits` computes the specified sections and leaves the specified rest |
| `OutDevices.ReadAxisRecords` | src/writer.cpp:367-391 | The axis loop computes the specified requests and leaves the specified rest |
| `AddDevice.IdRoundTrip` | src/reader.cpp:240-252 | The four numbers of a device id survive network order |
| `AddDevice.AxisRoundTrip` | src/reader.cpp:315-320 | The six signed numbers of an axis survive network order |
| `AddDevice.SentIsDigit` | src/reader.cpp:268-277 | The types with a section are those of the table whose binary digit in the event bytes is one |
| `AddDevice.AddPacketFields` | src/reader.cpp:226-232 | The packet carries the command, the id and the two sizes the reader checks |
| `AddDevice.AddRoundTrip` | src/writer.cpp:279-408 | For every device, id and following bytes: decoding consumes exactly the description; creating yields the mirrored device if and only if the name has a NUL, skipping always succeeds |
| `AddDevice.SectionsRoundTrip` | src/reader.cpp:278-298 | From every type on, the sections written for the set bits are the sections read back, with the ABS bitmap remembered for the axes |
| `AddDevice.AxesRoundTrip` | src/reader.cpp:300-324 | From every axis on, the records written for the set bits are the records read back |
| `AddDevice.MirrorExact` | src/writer.cpp:329-391 | A request is made of the new device exactly when the description says so: event bits without force feedback, codes of types in the table, axes whose ABS bit is set |
| `AddDevice.AddLocal` | src/writer.cpp:279-408 | On every byte stream, well-formed or not, an accepted description is accepted the same whatever bytes follow |
| `AddDevice.TruncatedAddRefused` | src/writer.cpp:294-396 | Cut anywhere, a description is refused in both modes, never misread: with the name error if the cut is behind a name without NUL that is to be created, else with the read error |
| `AddDevice.SkipCreateAligned` | src/writer.cpp:309-314 | On every byte stream: creating succeeds if and only if skipping does and the name has a NUL, both leave the same bytes, and the only other outcome is the name error |
| `AddDevice.SkipCreatePart` | src/writer.cpp:35-38 | The concrete device on which the two readers part |
| `InDevices.InDevice.WriteNeteventHeader` | src/reader.cpp:134-219 | The loops over both tables and all axes write exactly the specified header |
| `OutDevices.NewFromNeteventStream` | src/writer.cpp:158-277 | The netevent 1 reader with its shrunk and reused bit arrays computes the specified reader on every byte stream |
| `Legacy.HeaderRoundTrip` | src/writer.cpp:158-277 | For every set of event types, every state answer and every following bytes, the reader consumes exactly the header, and creates the device if and only if the name has a NUL |
| `Legacy.EntriesRoundTrip` | src/reader.cpp:169-181 | The code arrays are read back one for one in table order, with the ABS array remembered |
| `Legacy.StatesRoundTrip` | src/writer.cpp:251-261 | The state arrays are skipped exactly |
| `Legacy.AxisDumpRoundTrip` | src/writer.cpp:263-272 | Every axis below ABS_MAX is read, and applied where its bit is set |
| `Legacy.LegacyMirrorExact` | src/writer.cpp:216-235 | The legacy device is asked for exactly what the netevent 2 device is asked for, restricted to the six types of the table, codes below their maximum and axes below ABS_MAX |
| `Wire.HelloNumbers` | src/main.h:90-124 | Byte by byte: command 4, version 2, the eight characters NE2Hello, zeros, all numbers big-endian |
| `Wire.KeepAliveNumbers` | src/main.h:94-100 | A keep-alive packet is 28 zero bytes |
| `Wire.AddNumbers` | src/main.h:109-114 | Command 1, the id, 1116 and 80, zeros |
| `Wire.RemoveNumbers` | src/main.h:115-118 | Command 2, the id, zeros |
| `Wire.EventNumbers` | src/main.h:64-108 | Command 3, the id, and at fixed places seconds, microseconds, type, code and the value in two's complement, with zero padding |
| `Wire.HeadNumbers` | src/reader.cpp:234-266 | The name, the four numbers of the id, 31, and the event bytes, at their places |
| `Wire.SectionNumbers` | src/reader.cpp:268-298 | A section stands for each type of the table whose digit is set: the least whole number of longs above the greatest code, and that many bits |
| `Wire.SectionSizes` | src/main.cpp:812-836 | The eight types with a section and how many bits each has |
| `Wire.AxisNumbers` | src/reader.cpp:300-324 | The six signed numbers of an axis record in their order |
| `Wire.TailNumbers` | src/reader.cpp:326-333 | Behind the axis records stand four zero bytes |
| `Wire.HeaderNumbers` | src/reader.cpp:134-154 | The netevent 1 header in host order: 1116, the name, four numbers, the event bytes |
| `Wire.HeaderOrder` | src/reader.cpp:156-219 | The order and the sizes of the netevent 1 arrays: types 1, 3, 2, 4, 5, 17, the states of 1, 17, 5, then the axes |
| `Wire.HostAxisNumbers` | src/reader.cpp:209-218 | The six signed numbers of an axis in host order |
| `Refusals.PacketAnswered` | src/main.cpp:680-752 | On any bytes: a command above 4 ends the session, a removal or an event for an id not held does, and less than a packet is the end |
| `Refusals.EventAnswered` | src/writer.cpp:423-434 | An event is handed to its device as it stands, unless it has type 21 |
| `Refusals.HelloAnswered` | src/main.cpp:249-265 | A hello is checked for command, magic and version, in that order, each with its error |
| `Refusals.FirstAnswered` | src/main.cpp:266-274 | A new receiver needs a whole hello packet first; then it takes the rest of that connection and those after it, with nothing held |
| `Refusals.DuplicateAnswered` | src/main.cpp:706-729 | A device held already: an error, nothing, or another device in its place, by mode |
| `Refusals.HeadAnswered` | src/writer.cpp:284-327 | The checks before the sections on any bytes, in their order, each with its error |
| `Refusals.DeviceAnswered` | src/writer.cpp:291-318 | A created device is called what stands before the first NUL, has the four numbers of the id, and was handed nothing |
| `Refusals.SectionAnswered` | src/writer.cpp:335-365 | A section with any number of bits is taken with as many bytes as it asks for, or the description is refused |
| `Refusals.AxisAnswered` | src/writer.cpp:367-391 | An axis record is taken for each set axis bit, its six numbers as they stand |
| `Refusals.HeaderDeviceAnswered` | src/writer.cpp:170-181 | The same for the netevent 1 header, in host order |
| `Refusals.HeaderAnswered` | src/writer.cpp:158-190 | The checks before the netevent 1 arrays on any bytes, in their order |
| `Protocol.EventRoundTrip` | src/main.h:72-85 | `toHost` undoes `toNet` for every event |
| `Protocol.PacketFields` | src/main.h:92-129 | Every packet is read back with its command, id and payload, and the hello packet passes the hello check |
| `Protocol.EncodeAllAppend` | src/main.h:100-129 | The bytes of two bursts are the bytes of one |
| `Receiver.PacketRoundTrip` | src/main.cpp:681-752 | In every mode and table state, one encoded message followed by any bytes is acted on as itself and exactly its bytes are consumed |
| `Receiver.SessionRoundTrip` | src/main.cpp:680-755 | Decoding the concatenated encodings of any messages acts on exactly that list, in every mode |
| `Receiver.FittingExact` | src/main.cpp:681 | The number of whole messages in a prefix: they fit, and one more does not |
| `Receiver.CutPacketIgnored` | src/main.cpp:681 | A message cut short is never acted on; inside a description of its own the session ends with the error of the cut, elsewhere as at the end of the stream |
| `Receiver.TruncatedSession` | src/main.cpp:680-755 | On a stream cut at any byte, exactly the whole messages before the cut are acted on, and the session ends with their error, with that of a description cut inside, or as at the end of the stream |
| `Receiver.ReconnectIdempotent` | src/main.cpp:719-722 | Hello and announcements of ids already present leave a resuming receiver unchanged and are consumed whole; a rejecting one stops at the first announcement |
| `Receiver.ServeAppend` | src/main.cpp:754-763 | A new connection continues with the devices the earlier ones left |
| `Create.RunSession` | src/main.cpp:680-753 | The packet loop over a file descriptor computes the specified session |
| `Create.ReadHello` | src/main.cpp:249-274 | The first packet is accepted exactly when it is a hello of this version |
| `Create.RunCreate` | src/main.cpp:678-764 | The whole command over the connections accepted in order computes the specified receiver |
| `Tokenizer.SkipWhiteFrom` | src/daemon.cpp:770-776 | The cursor stops at the first character that is not white, never past the end, and reports whether text is left |
| `Tokenizer.ParseString` | src/daemon.cpp:778-813 | The cursor advances, stays within the text, and what it collects is the specified quoted string |
| `Tokenizer.ParseWord` | src/daemon.cpp:1199-1214 | The span-copying loop collects the specified word; the cursor advances and stays within the text |
| `Tokenizer.ParseClientCommand` | src/daemon.cpp:1163-1220 | For every text the loop ends and dispatches the specified argument lists in order |
| `Tokenizer.QuotedRoundTrip` | src/daemon.cpp:778-813 | A string without the quote, escaped and quoted, is read back as itself and the cursor stands after the quote |
| `Tokenizer.WordRoundTrip` | src/daemon.cpp:1199-1214 | A bare word with escaped backslashes and semicolons is read back as itself |
| `Tokenizer.TokenizerRoundTrip` | src/daemon.cpp:1163-1220 | Printing any list of commands with expressible arguments, separated by semicolons, and tokenizing it dispatches exactly that list |
| `Tokenizer.CommandsPrintable` | src/daemon.cpp:1163-1220 | Whatever the text, every dispatched list is non-empty and each argument lacks one quote kind or is a bare word |
| `Tokenizer.Expressiveness` | src/daemon.cpp:778-813 | A list of argument lists has a text if and only if it is printable |
| `Characters.BetweenExact` | src/daemon.cpp:764-776 | Between two words: the characters 9, 10, 13 and 32 separate arguments, a semicolon separates commands, a NUL ends the text, a backslash is left out, any other character belongs to the word |
| `Characters.QuotesExact` | src/daemon.cpp:1193-1197 | Around two words with a space: the characters 34 and 39 make one argument of them, no other does |
| `Characters.EscapesExact` | src/daemon.cpp:786-806 | In a string, a backslash and one of ten characters stand for the character with the number listed; every other pair stands for itself |
| `Characters.BackslashHidesNoEnd` | src/daemon.cpp:778-813 | A backslash hides neither the closing quote nor the end of the text, and is dropped there |
| `Replay.CStrExact` | src/daemon.cpp:956-958 | A stored text is the part before the first NUL |
| `Replay.Join` | src/utils.h:68-79 | The loop computes the specified join |
| `Replay.JoinIsSpaced` | src/utils.h:68-79 | A separator stands between every two arguments, as documented, if and only if there are fewer than two or the first is not empty |
| `Replay.JoinDropsSpace` | src/utils.h:68-79 | An input for which it does not: an empty first argument |
| `Replay.WordsTyped` | src/daemon.cpp:1163-1220 | Words typed with single spaces and escapes are one argument list |
| `Replay.MarkedDispatches` | src/daemon.cpp:1185-1192 | The joined text of marked words dispatches the commands they mark, one after another |
| `Replay.StoreAndReplay` | src/daemon.cpp:955-958 | Plain-word commands typed after any head words with `\;` between them are stored as one text whose replay dispatches exactly those commands |
| `Replay.StoreVerbatim` | src/daemon.cpp:1075-1086 | Any text lacking one quote kind is stored as it is when quoted |
| `Replay.CutReplays` | src/daemon.cpp:956-958 | Storing a text as a C string does not change what it replays as |
| `Numbers.ParseDigits` | src/main.cpp:96-141 | The digit loops compute the specified positional value or refuse |
| `Numbers.ParseLong` | src/main.cpp:143-195 | Blanks, sign and digits are handled as specified, length limit included |
| `Numbers.OctalRoundTrip` | src/main.cpp:119-129 | Every octal numeral is read as its value |
| `Numbers.HexRoundTrip` | src/main.cpp:100-118 | Every hexadecimal numeral, in either case, is read as its value |
| `Numbers.DecimalRoundTrip` | src/main.cpp:130-139 | Every decimal numeral is read as its value, whether the length limit or the end of the text stops it |
| `Numbers.SameUpToExact` | src/main.cpp:220-230 | The bounded comparison is equality up to case of that many characters |
| `Numbers.NameRoundTrip` | src/main.h:237-262 | A printed type name is read back as the number beside it in the table |
| `Numbers.FieldsRoundTrip` | src/daemon.cpp:927-957 | For every name table, the code and the value come back whatever the name is, and the name alone decides the type or the refusal |
| `Numbers.ShowRoundTrip` | src/main.cpp:338-341 | What `show` prints parses back to the same type, code and value if and only if the type is at most 5 |
| `Definitions.DigitExact` | src/main.cpp:96-141 | A digit is worth its place in 0123456789abcdef, or in capitals, if that is below the base |
| `Definitions.SignExact` | src/main.cpp:154-175 | Any blanks, then a plus, or a minus where signs are allowed, then digits: read as that number; an unsigned number with a minus is refused |
| `Definitions.LengthWraps` | src/main.cpp:154-168 | Where blanks use up the length, a sign makes the rest of it wrap |
| `Definitions.NamedType` | src/main.cpp:220-230 | Each of the twelve names is read as its number, whatever follows |
| `Definitions.PrefixIgnored` | src/main.cpp:223-226 | `EV_` in front, in capitals or not, makes no difference |
| `Definitions.TypeByNumber` | src/main.cpp:231-234 | A decimal number is read as the type with that number, cut to 32 bits; all ones is the error |
| `Definitions.SpecExact` | src/daemon.cpp:934-957 | A definition is read if and only if the type is below 32, the code fits in 16 bits and the value is a number; the value is cut to 32 bits |
| `Definitions.NoSpec` | src/daemon.cpp:922-932 | A definition without two colons that have something behind them is refused |
| `DaemonState.Opens` | src/daemon.cpp:592-609 | An opened descriptor is non-negative and not open already |
| `DaemonState.Insert` | src/daemon.cpp:527 | A new table entry leaves the others in place and order |
| `DaemonState.Without` | src/daemon.cpp:1377-1386 | Exactly the descriptors queued for removal leave the poll list |
| `Daemon.Daemon.constructor` | src/daemon.cpp:90-107 | The globals as the program starts, with the server registered and polled |
| `Daemon.Daemon.RemoveFD` | src/daemon.cpp:139-149 | Queues a descriptor once, and no negative one |
| `Daemon.Daemon.WriteToOutput` | src/daemon.cpp:165-174 | Writes to one output, or marks it broken and queues it |
| `Daemon.Daemon.WriteToAll` | src/daemon.cpp:176-186 | Every output gets the message in order; exactly the failing ones are queued |
| `Daemon.Daemon.AddInput` | src/daemon.cpp:500-532 | The whole new state of `device add`, failed opens included |
| `Daemon.Daemon.FinishDeviceRemoval` | src/daemon.cpp:342-355 | Announces unless persistent, drops the hotkeys, erases the input; gives the id back only if the flag says so |
| `Daemon.Daemon.CleanupDeviceHotkeys` | src/daemon.cpp:188-197 | Exactly the hotkeys of the device go |
| `Daemon.Daemon.AddOutput` | src/daemon.cpp:656-671 | The whole new state of `output add`, failed hello included |
| `Daemon.Daemon.AddOutputFinish` | src/daemon.cpp:573-590 | A greeted output gets every input announced unless it resumes, and is registered without overwriting callbacks; one that failed on the way is queued for removal |
| `Daemon.Daemon.AnnounceAllDevices` | src/daemon.cpp:491-498 | Announces in table order and stops at the first failure |
| `Daemon.Daemon.LostCurrentOutput` | src/daemon.cpp:421-430 | No current output, and writing off |
| `Daemon.Daemon.FinishOutputRemoval` | src/daemon.cpp:549-561 | The current output is lost before its entry is erased |
| `Daemon.Daemon.SwitchWriting` | src/daemon.cpp:694-707 | Sets, clears or toggles the write flag, or refuses |
| `Daemon.Daemon.Exec` | src/daemon.cpp:1094-1161 | The effect of every modelled command, error cases included |
| `Daemon.Daemon.Reply` | src/daemon.cpp:291-312 | A client that cannot be written to is queued for removal |
| `Daemon.Daemon.RunText` | src/daemon.cpp:1163-1236 | The commands of one text run in order until one fails |
| `Daemon.Daemon.ProcessCommandQueue` | src/daemon.cpp:1222-1236 | All queued texts in order, and then an empty queue |
| `Daemon.Daemon.ProcessRemovals` | src/daemon.cpp:199-211 | Every queued descriptor has its callback run and its entry erased, in order |
| `Daemon.Daemon.OnRemove` | src/daemon.cpp:199-227 | The removal callback of each kind of descriptor, with its exception |
| `Daemon.Daemon.NewClient` | src/daemon.cpp:267-287 | A new client is polled, registered and entered |
| `Daemon.Daemon.ReadLine` | src/daemon.cpp:236-259 | A line is queued for its client; end of file queues the removal |
| `Daemon.Daemon.ReadEvent` | src/daemon.cpp:432-444 | An unreadable device is queued for removal, an event is routed |
| `Daemon.Daemon.Route` | src/daemon.cpp:446-467 | Hotkey, or current output while writing is on, or dropped; a failed write loses the output |
| `Daemon.Daemon.Fail` | src/daemon.cpp:1352-1357 | Error and hang-up quit for the server and queue every other descriptor |
| `Daemon.Daemon.Serve` | src/daemon.cpp:1404-1422 | Error, hang-up and input callbacks in this order, stopping once the daemon quits |
| `Daemon.Daemon.MergeAddQueue` | src/daemon.cpp:1371-1375 | New descriptors join the poll list |
| `Daemon.Daemon.FilterPollList` | src/daemon.cpp:1377-1386 | Descriptors queued for removal leave the poll list |
| `DaemonWords.InterpretExact` | src/daemon.cpp:1094-1161 | An argument list is interpreted as an action if and only if it is one of the spellings of that action, for every action |
| `DaemonWords.MalformedExact` | src/daemon.cpp:1094-1161 | It is an error if and only if it spells no action |
| `DaemonWords.BoolExact` | src/main.cpp:197-218 | A text is a boolean if and only if it is one of four words for true or four for false, in any case |
| `DaemonWords.SwitchExact` | src/daemon.cpp:694-722 | A text switches on or off by these words, and toggles by that word |
| `DaemonWords.TextRuns` | src/daemon.cpp:1163-1236 | Every text that prints a spelling has exactly that action executed and answered |
| `DaemonWords.ErrorEndsText` | src/daemon.cpp:1163-1236 | The commands of a text are executed up to the first that fails, and none after it |
| `DaemonCommands.UseExact` | src/daemon.cpp:377-388 | `output use` makes the output with the name current and changes nothing else; it fails, without effect, if and only if there is none |
| `DaemonCommands.OutputRemoveExact` | src/daemon.cpp:151-163 | `output remove` queues the output with the name and changes nothing else |
| `DaemonCommands.InputRemoveExact` | src/daemon.cpp:534-547 | `device remove` queues the device with the name and changes nothing else |
| `DaemonCommands.RenameExact` | src/daemon.cpp:836-844 | `device rename` gives the device with the name the bytes of the text, zeros behind them, and changes nothing else |
| `DaemonCommands.ResetNameExact` | src/daemon.cpp:845-853 | `device reset-name` is a rename to the name found when the device was opened |
| `DaemonCommands.ResetUndoesRename` | src/reader.cpp:116-132 | Resetting the name after any rename gives back the state before it |
| `DaemonCommands.PersistExact` | src/daemon.cpp:854-874 | `device set-persistent` sets the flag of the device with the name; no boolean, no change |
| `DaemonCommands.HotkeyAddExact` | src/daemon.cpp:724-733 | `hotkey add` enters its text for the id of the device with the name and the definition, and changes nothing else |
| `DaemonCommands.HotkeyRemoveExact` | src/daemon.cpp:735-741 | `hotkey remove` takes away that one entry |
| `DaemonCommands.ReleasedHotkeys` | src/daemon.cpp:188-197 | A released device loses its hotkeys, no other device does |
| `DaemonCommands.WritingExact` | src/daemon.cpp:694-707 | `write-events` sets, clears or toggles the flag and nothing else |
| `DaemonCommands.GrabExact` | src/daemon.cpp:1123-1131 | `grab` switches the same flag, unless grabbing fails |
| `DaemonCommands.OtherExact` | src/daemon.cpp:1094-1161 | `nop`, `quit`, errors, and the commands outside this state |
| `DaemonCommands.ReplyExact` | src/daemon.cpp:291-312 | A client that cannot be answered waits for removal |
| `DaemonCommands.DropFailedExact` | src/daemon.cpp:165-186 | After a message to all outputs, exactly those that cannot be written to were added to what waits for removal |
| `DaemonCommands.AddsExact` | src/daemon.cpp:500-532 | `device add` goes through if and only if the name is new, an id is left and the device opens |
| `DaemonCommands.AddExact` | src/daemon.cpp:500-532 | Then the device is entered under its name, registered and polled, and the outputs that fail wait for removal |
| `DaemonCommands.AddFails` | src/daemon.cpp:500-532 | Otherwise no table changes, and the next id is the same as before |
| `DaemonCommands.AnnounceAllExact` | src/daemon.cpp:491-498 | A new output is told of the inputs before the first that cannot be written, and is broken if there is one |
| `DaemonCommands.ToldExact` | src/daemon.cpp:573-580 | A new output that does not resume holds the hello and the announcements of the inputs, or of those before the first that failed |
| `DaemonCommands.ConnectsExact` | src/daemon.cpp:656-671 | `output add` goes through if and only if the name is new, the output opens and can be greeted |
| `DaemonCommands.ConnectExact` | src/daemon.cpp:573-590 | Then the output is entered under its name, registered but not polled, and waits for removal if an announcement failed |
| `DaemonEvents.HotkeyFires` | src/daemon.cpp:390-403 | An event whose device, type, code and value are those of a hotkey queues its text for no client and does nothing else |
| `DaemonEvents.OtherEvent` | src/daemon.cpp:446-467 | Any other event queues no command; it is written to the current output while writing is on, or is dropped; a failed write queues that output and leaves none current |
| `DaemonEvents.EventRead` | src/daemon.cpp:432-447 | What is read from an input counts as coming from its device |
| `DaemonEvents.HotkeyAdded` | src/daemon.cpp:724-733 | After `hotkey add`, the matching events of that device queue the text; nothing changes for all others |
| `DaemonEvents.HotkeyRemoved` | src/daemon.cpp:735-741 | After `hotkey remove` they queue nothing; nothing changes for all others |
| `DaemonEvents.HotkeyEndToEnd` | src/daemon.cpp:912-962 | From text to effect: typing `hotkey add` with commands separated by `\;`, then a matching event of that device, executes exactly those commands |
| `DaemonEvents.UsedOutputIsSent` | src/daemon.cpp:377-388 | After `output use`, with writing on, an event that is no hotkey is written to the output with that name and to no other |
| `DaemonInvariant.AddInputInv` | src/daemon.cpp:500-532 | `device add` keeps the invariant, whatever the world answers |
| `DaemonInvariant.AddOutputInv` | src/daemon.cpp:573-590 | `output add` keeps the invariant, also when the hello or an announcement fails |
| `DaemonInvariant.UseOutputInv` | src/daemon.cpp:377-388 | Selecting an output keeps the current output an entry of the table with its descriptor |
| `DaemonInvariant.HotkeyInv` | src/daemon.cpp:724-741 | Adding and removing hotkeys keeps every hotkey on a live device |
| `DaemonInvariant.RemoveInputInv` | src/daemon.cpp:543-547 | Queuing an input for removal keeps the invariant |
| `DaemonInvariant.RemoveOutputInv` | src/daemon.cpp:156-163 | Queuing an output for removal keeps the invariant |
| `DaemonInvariant.ExecInv` | src/daemon.cpp:1094-1161 | Every command keeps the invariant |
| `DaemonInvariant.ExecClients` | src/daemon.cpp:1094-1161 | No command registers or forgets a client |
| `DaemonInvariant.RunQueueInv` | src/daemon.cpp:1222-1236 | A whole command queue keeps the invariant and the clients |
| `DaemonInvariant.ReleaseInputCore` | src/daemon.cpp:342-355 | Releasing an input keeps tables, hotkeys and routing in order; the exception is not reached |
| `DaemonInvariant.ReleaseOutputCore` | src/daemon.cpp:549-561 | Releasing an output never leaves it current; the exception is not reached |
| `DaemonInvariant.ReleaseClientCore` | src/daemon.cpp:219-227 | Releasing a client keeps the tables in order; the exception is not reached |
| `DaemonInvariant.DrainExact` | src/daemon.cpp:199-211 | The drain releases every queued descriptor exactly once in order; afterwards none is in a table, queue or poll list, and the poll list is exactly the rest |
| `DaemonInvariant.RouteEventFate` | src/daemon.cpp:446-467 | A read event queues exactly the command of its hotkey, or reaches exactly the current output once, or changes nothing but the record of it |
| `DaemonInvariant.RouteEventInv` | src/daemon.cpp:432-467 | Routing keeps the invariant, also when the write fails and the output is lost |
| `DaemonInvariant.PollOneInv` | src/daemon.cpp:1404-1422 | The callbacks of one polled descriptor keep the invariant; the callback map is never broken |
| `DaemonInvariant.TurnInv` | src/daemon.cpp:1368-1424 | Every turn keeps the invariant, against any world |
| `DaemonSync.IdsCovered` | src/daemon.cpp:315-334 | Live and free ids without repeats or overlap below their number are together exactly the numbers below it |
| `DaemonSync.AllocateOk` | src/daemon.cpp:315-328 | The id handed out is not live and fits 16 bits; the tables stay in order when the add succeeds and when it fails |
| `DaemonSync.FreeOk` | src/daemon.cpp:330-334 | A removal that gives the id back keeps the tables in order |
| `DaemonSync.DropOk` | src/daemon.cpp:342-355 | A removal as written keeps them in order if and only if the id was the greatest |
| `DaemonRuns.ExecKeeps` | src/daemon.cpp:139-149 | No command takes a descriptor back from the removal queue or releases one |
| `DaemonRuns.DeferredRemoval` | src/daemon.cpp:1369-1387 | Whatever is queued before or by the commands of a turn is released in that turn, once each and in order, and is then neither registered, polled nor open |
| `DaemonRuns.DispatchedWhileRegistered` | src/daemon.cpp:1222-1236 | Each queued command is dispatched while its client is registered, even when that client is already queued for removal |
| `BitField.Bits.ResizeNE1Compat` | src/bitfield.h:117-123 | The allocation becomes exactly the netevent 1 size; the common bytes are kept and the added ones zero |
| `Receiver.PacketAligned` | src/main.cpp:691-724 | One packet of arbitrary bytes, for receivers with the same ids: replacing goes on exactly when resuming does and the packet is not an announcement of a known id with a name without NUL; then both keep the same ids and the same rest |
| `Receiver.SessionAligned` | src/main.cpp:680-755 | Whole streams of arbitrary bytes: the two receivers read the same number of packets exactly if no packet the resuming one reads on from is such an announcement; then they hold the same ids at the end |
| `Receiver.RejectIsResumeWithoutDuplicates` | src/main.cpp:706-722 | On arbitrary bytes, rejecting is resuming unless it meets a duplicate; up to that duplicate they do the same |
| `Receiver.ReconnectAfterAnything` | src/main.cpp:754-763 | The same for resume and reject on a new connection after any earlier connections that did not fail, whatever bytes they carried |
| `Daemon.Daemon.GetNextInputID` | src/daemon.cpp:315-328 | The exception on a full table; otherwise the last freed id, or the number of inputs, and the free list loses what is handed out |
| `Daemon.Daemon.RunTurn` | src/daemon.cpp:1368-1424 | One turn is its phases in order: commands, adds, filter, drain, callbacks; it keeps the invariant |
| `Daemon.Daemon.RunLoop` | src/daemon.cpp:1368-1424 | Any number of turns from any state computes the specified run and keeps the invariant |
| `DaemonInvariant.RouteEventRouting` | src/daemon.cpp:446-467 | After routing, every output holds the events routed to it since it was added, in order: all of them, or the first of them if a write failed |
| `DaemonInvariant.DrainAnnouncementGrows` | src/daemon.cpp:165-211 | Announcing a removal would make the vector being walked grow exactly when a write fails for an output that is not in it; otherwise it goes as modelled |
| `DaemonInvariant.NoFallback` | src/daemon.cpp:421-430 | Releasing the current output leaves none current and writing off; releasing anything else changes neither |
| `DaemonInvariant.FailedWriteLosesCurrent` | src/daemon.cpp:446-467 | So does a failed write to the current output; no other output becomes current |
| `DaemonInvariant.RunInv` | src/daemon.cpp:1368-1424 | In every run of any length against any world: the keys of the callback map are exactly the server, client, input and output descriptors, no internal exception is thrown, the current output and all hotkeys are valid, queues and poll list are registered, and every output holds the events routed to it, all of them or the first of them if a write failed |
| `DaemonSync.KnownAccepted` | src/main.cpp:691-746 | A receiver of any kind accepts a stream whole if and only if its ids are in order for that kind; then it ends with exactly those ids and has handed exactly the stream's events to its devices |
| `DaemonSync.StreamAccepted` | src/main.cpp:680-753 | The same from the bytes, whatever devices the receiver held before |
| `DaemonSync.ResumeWithMore` | src/main.cpp:719-729 | A resuming receiver that holds more accepts every stream one that holds less accepts, and keeps what it holds beyond that unless the stream removes it |
| `DaemonSync.HeldKept` | src/main.cpp:706-746 | A device a resuming receiver holds and the stream does not remove stays the same device, also when it is announced again, and is written all events sent for its id |
| `DaemonSync.AnnouncementRejected` | src/main.cpp:706-717 | Announcing an id the receiver holds, or a name without NUL, ends the session with that error, whatever follows |
| `DaemonSync.ReceiverExact` | src/main.cpp:680-753 | A rejecting receiver accepts a stream if and only if its ids are in order; then each device mirrors the last description announced under its id, or is the one held before, and was written exactly the events sent for it since, without force feedback |
| `DaemonSync.NewReceiver` | src/main.cpp:678-763 | A new receiver, which takes the hello packet apart from the rest, ends with the same devices and in the same way as one that reads the stream with nothing held |
| `DaemonHeard.ExecHeard` | src/daemon.cpp:1094-1161 | A command leaves the receivers behind all working outputs holding exactly the live ids if and only if a `device add` that some of them hears of has an id that is not live and a name with a NUL, and no input announced to a new output repeats an id or has a name without NUL |
| `DaemonHeard.ReleaseHeard` | src/daemon.cpp:342-355 | So does a release if and only if an announced removal some output hears of leaves no other input with the id, and an unannounced one leaves another, or no output works |
| `DaemonHeard.ExecResumable` | src/daemon.cpp:1094-1161 | A command leaves resuming receivers holding at least the live ids, which stay distinct and announceable, if and only if it is no `device add` with a live id or a name without NUL; outputs added again are covered |
| `DaemonHeard.ReleaseResumable` | src/daemon.cpp:342-355 | Every release does, announced or not |
| `DaemonStreams.DeliveredAll` | src/daemon.cpp:176-186 | A message sent to all outputs leaves each of them telling of the new inputs |
| `DaemonStreams.AnnounceAllOk` | src/daemon.cpp:484-498 | A new output that was not resumed is told exactly the live inputs with their descriptions |
| `DaemonStreams.AddInputExact` | src/daemon.cpp:500-532 | `device add` keeps daemon and outputs in step if and only if the id it is given is not live and the name has a NUL |
| `DaemonStreams.BadAddRejected` | src/daemon.cpp:500-512 | Otherwise the receiver behind every output in step that hears of it ends with the duplicate or the name error, whatever is written later |
| `DaemonStreams.ReleaseExact` | src/daemon.cpp:342-355 | Releasing a descriptor keeps daemon and outputs in step if and only if it is not an input whose removal goes unannounced to an output that still works |
| `DaemonStreams.ExecExact` | src/daemon.cpp:1094-1161 | A command keeps daemon and outputs in step if and only if it is not a `device add` of that kind |
| `DaemonStreams.RouteEventSync` | src/daemon.cpp:456-459 | An event is sent only with a live id |
| `DaemonEndToEnd.ReleaseKeepsIds` | src/daemon.cpp:342-355 | Releasing a descriptor keeps the id tables in order if and only if it is not an input, or its id is given back or the greatest |
| `DaemonEndToEnd.TurnExact` | src/daemon.cpp:1368-1424 | For each of four properties (id tables in order; rejecting receivers hold exactly the live ids; they mirror the inputs; resuming receivers hold at least the live ids): in a turn it holds after every command and every release if and only if the guard holds before each of them; then it holds at the end of the turn |
| `DaemonEndToEnd.RunExact` | src/daemon.cpp:1368-1424 | The same for every run of any length against any world |
| `DaemonEndToEnd.EndToEnd` | src/daemon.cpp:432-590 | For every run whose steps meet the exact guards of `ExecHeard` and `ReleaseHeard`: a rejecting receiver of any output accepts all that was written before a failed write and gets the routed events in order; if no write failed it holds exactly the live ids. Outputs added with `--resume` included, for receivers that hold the ids of that moment |
| `DaemonEndToEnd.EndToEndMirrored` | src/daemon.cpp:432-590 | If moreover every `device add` that goes through has an id that is not live and a name with a NUL, and no removal goes unannounced while an output works: its device for each live id is the mirrored input, written exactly the events sent for it since it was announced; for an input known when the output resumed, it is the device held, written those events |
| `DaemonEndToEnd.EndToEndResuming` | src/daemon.cpp:342-590 | For every run whose `device add`s have an id that is not live and a name with a NUL, whatever is released unannounced and added again: a resuming receiver that holds at least what it is taken to hold accepts all that was written, gets the routed events, holds every live id, keeps the devices it held and was not told to remove, and holds nothing else beyond what the stream tells of |
| `DaemonRuns.OrderlyRun` | src/daemon.cpp:315-355 | If every released id is given back or the greatest and every removal announced, the guards hold along the whole run |
| `DaemonRuns.EndToEndWhenOrderly` | src/daemon.cpp:315-355 | The end-to-end statement for every such run |
| `DaemonRuns.EndToEndWhenFreed` | src/daemon.cpp:330-355 | With ids given back: the end-to-end statement for every run that drains no persistent input |
| `DaemonRuns.EndToEndWithoutRemoval` | src/daemon.cpp:342-355 | As written: the end-to-end statement for every run that completes no input removal |
| `DaemonRuns.IdsAlongRun` | src/daemon.cpp:315-355 | In every run, the id tables stay in order after every command and release if and only if each released input gives its id back or has the greatest; then live and free ids never repeat, are together an initial segment, and the next id is unused and fits |
| `DaemonRuns.IdsWhenFreed` | src/daemon.cpp:315-355 | With ids given back, that holds at the end of every run against any world |
| `DaemonRejected.LastsFrom` | src/daemon.cpp:1368-1424 | An output in the tables after any command of any run is there after every later turn, with all that was written to it, unless it was released in between |
| `DaemonRejected.RejectedForGood` | src/daemon.cpp:500-512 | In any run, once a `device add` with a live id or a name without NUL is written to an output whose receiver was in step, that receiver ends with the duplicate or the name error at every later turn until the output is released |
| `DaemonRejected.FirstBadAdd` | src/daemon.cpp:500-532 | The first `device add` of a run that fails the exact guard is heard of by some output, and each receiver that hears of it is lost in that way |
| `DaemonUpkeep.BeforeExact` | src/daemon.cpp:97-98 | The tables are in the order of the maps: a name before those it begins, and by the first character that differs |
| `DaemonUpkeep.ExecUpkept` | src/daemon.cpp:1094-1161 | Every command keeps the order of names, has what it registers polled once, and queues each output that breaks |
| `DaemonUpkeep.ReleaseUpkept` | src/daemon.cpp:199-211 | So does every release |
| `DaemonUpkeep.PollUpkept` | src/daemon.cpp:1399-1420 | So does every callback |
| `DaemonUpkeep.StartsEmpty` | src/daemon.cpp:1337-1366 | The daemon starts with its server, the lines it was given, and nothing else |
| `DaemonUpkeep.EveryTurnSettles` | src/daemon.cpp:1368-1424 | In every run, whenever the daemon waits: exactly the registered descriptors that are no outputs are polled, each once; no output is broken; nothing is queued; the tables are in order |
| `DaemonUpkeep.PolledInOrder` | src/daemon.cpp:1371-1387 | Descriptors are polled in the order they came, without those that wait for removal |
| `DaemonFailures.PollQueues` | src/daemon.cpp:1399-1420 | What the callbacks of a descriptor queue, exactly: itself after an error, a hang-up or a read that finds nothing; the current output if an event cannot be written |
| `DaemonFailures.ServerPolled` | src/daemon.cpp:1352-1357 | An error or a hang-up on the server ends the daemon |
| `DaemonFailures.ClientAccepted` | src/daemon.cpp:267-287 | A connection becomes a client, registered and about to be polled; if it cannot be taken the daemon ends |
| `DaemonFailures.LineWaits` | src/daemon.cpp:229-259 | A line from a client waits to be run for it, behind those before |
| `DaemonFailures.PollsQueue` | src/daemon.cpp:1399-1420 | The same for the callbacks of a whole turn, until one quits |
| `DaemonFailures.QueuedIsReleased` | src/daemon.cpp:1368-1424 | In every run, what the callbacks of a turn queue is released in the next, and is then in no table |
| `DaemonFailures.FailedIsReleased` | src/daemon.cpp:1368-1424 | In every run, a client or input that reports an error or a hang-up is released before the daemon waits again, unless it quits |
| `DaemonCollision.RemovalLeavesStale` | src/daemon.cpp:342-355 | Releasing an input as written whose id is not the greatest leaves the id after those counted in use |
| `DaemonCollision.CollisionFollows` | src/daemon.cpp:315-328 | From such tables, the `device add` after as many as there are free ids is given an id that is live |
| `DaemonCollision.FourStepCollision` | src/daemon.cpp:315-355 | As written, a run of three turns: an output and devices A and B are added, A is removed, a client adds C; then two live inputs have the id 1, and a rejecting receiver ends on the stream the output was sent |
| `DaemonCollision.SomeRunCollides` | src/daemon.cpp:315-355 | There are command lines for which this run happens |

## Left out

- DaemonEndToEnd.EndToEndMirrored: a persistent input's removal is not announced, by design, so a rejecting receiver keeps its id and fails when it comes back; `RunExact` says exactly when, `EndToEndResuming` what holds then.
- Streams.Stream.MustRead: the only failure of `read` is the end of the stream; other read errors, which end the receiver with a message, are not modelled.
- Daemon.Daemon.WriteToAll: in the drain only outputs already queued for removal may fail; another failure makes the vector `processRemoveQueue` walks grow (`DrainAnnouncementGrows`, src/daemon.cpp:199-211), which C++ leaves undefined.
- Daemon.Daemon.FinishDeviceRemoval: as `WriteToAll`, which it calls.
- Daemon.Daemon.ProcessRemovals: as `WriteToAll`, which its callbacks call.
- Daemon.Daemon.Exec: `action`, `info`, `source`, `exec` and grabbing, where their parameters fit, only succeed or fail as the world says; the map of event actions is empty, because actions may recurse without end (doc/netevent.rst:132-134).
- Daemon.Daemon.SwitchWriting: the action for the change of the write flag is not fired, as there are no actions.
- Daemon.Daemon.LostCurrentOutput: grabbing is not switched off, as it is not modelled.
- Daemon.Daemon.Reply: the one to three responses to a command are one write.
- Daemon.Daemon.ReadLine: a read error is treated as the end of file, which has the same effect.
- Daemon.Daemon.NewClient: a failed accept ends the daemon, as the exception does, without its message.
- Daemon.Daemon.AddOutput: the kinds of output paths and how each is opened are one answer of the world.
- Daemon.Daemon.WriteToOutput: what is written to an output after a failed or partial write is not part of its stream; in the drain as `WriteToAll`.
- Daemon.Daemon.constructor: start-up files are command lines queued for no client, so an error in one is reported instead of ending the program.
- OutDevices.NewFromNE2AddCommand: uinput requests are recorded in order and do not fail, and a device is only handed out created, so the `created_` guard cannot trip; the warning about state bits is not modelled.
- OutDevices.NewFromNeteventStream: uinput requests do not fail, as above.
- OutDevices.ReadTypeSections: uinput requests do not fail, as above; moving `entrybits` into `absbits` is a copy of its bytes.
- OutDevices.ReadAxisRecords: uinput requests do not fail, as above.
- InDevices.InDevice.WriteNE2AddDevice: queries and writes succeed; how the daemon treats a failed announcement is in `Daemon.Daemon.AnnounceAllDevices`.
- InDevices.InDevice.WriteSections: queries and writes succeed.
- InDevices.InDevice.WriteAxes: queries and writes succeed.
- InDevices.InDevice.WriteNeteventHeader: queries and writes succeed.
- Legacy.HeaderRoundTrip: the event stream after the header is not modelled; host order is little-endian.
- Numbers.ParseLong: `long` is unbounded, so overflow is not modelled; the casts of the results to 16 and 32 bits are.
- Numbers.ParseDigits: `long` is unbounded, so overflow is not modelled.
- Tokenizer.ParseClientCommand: one `char` is one character; a conversion to bytes happens where a name is stored.
- Device grabbing: a device added while grabbing is on is not grabbed and a failed grab leaves mixed state, so there is no invariant to prove.
- Sockets, pipes, `fork`, signals, `poll`, environment variables and file handles: what they answer is part of the world.
- Option parsing, usage texts, messages and the `info` listing: formatting.
- The table of uinput requests and the sizes of the kernel's bitmaps, ids and axes come from the Linux headers (linux/input-event-codes.h and linux/uinput.h), which are not part of the repository; `long` has 64 bits.
