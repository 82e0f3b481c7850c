# Roomba Open Interface driver: a Dafny model

This project models the command layer of a Go driver for iRobot Roomba/Create
robots. The robots speak the Open Interface (OI) serial protocol. Each Driver
command takes typed arguments. Some commands range-check those arguments and
collect every violation before deciding. An accepted command becomes one
frame: an opcode byte followed by an exact payload, handed to the serial port
by `write`. The model also covers the connection lifecycle of the roomba
`Adaptor` and of the serial package's `socket`. Each is a handle that is
either closed or open, moved between the two by `Connect` and `Finalize`.

Modules:

- `Bytes`: Go's `uint8`, `int8` and `int16` as bounded integers. Also the big-endian two's-complement split of 16-bit values (`(v >> 8) & 0xFF`, `v & 0xFF`) and the packing of ordered flags into a bitfield byte (`bits |= 0x01 << i`).
- `Errors`: error tags, the `Checked` result (a frame or every violation), and the `push` helper.
- `Notes`: the song `Note` and its validity range.
- `Wire`: a decoder for the OI command table. It says which command a frame stands for, or that the robot cannot parse it. Every encoder's frame is proved to decode to the command it was asked to send, with three exceptions. Song and Stream with 256 or more items do not decode, because the count byte wraps. The as-written QueryList and Buttons decode to something else, and their contracts say what (see Findings). Opcodes, data lengths, two's-complement fields, count bytes and the Motors and LEDs bit orders come from the protocol table. QueryList's count byte and the Buttons bit order (Minute at bit 3) follow the Open Interface document where the Driver departs from it (see Findings). The DigitalOutput and SchedulingLEDs bit orders are not given by the table, so they are taken from the Driver's own flag lists. For those two commands the decode property only restates the encoder's layout.
- `Commands`: every Driver command, `Halt`, and `Send`. `Send` is one call end to end: a rejected command writes nothing, and an accepted one writes its frame and returns the port's write error.
- `Transport`, `Adaptor`, `Socket`: the lifecycle state machines. adaptor.go and socket.go each implement the same Connect/Finalize lifecycle, and the model keeps the two copies, so `Run` and `IdentityStable` appear in both modules; the shared `Step` result lives in `Transport`, and `Socket.AgreesWithAdaptor` proves the two copies behave alike. The outcomes of the serial library's open and close calls are parameters.

The model follows the code as written, including where the code does less than
its comments or the protocol suggest:

- `DrivePWM` checks the left wheel with `leftPWM < -255 || rightPWM > 255`. It tests `rightPWM` where `leftPWM` is meant (see Findings).
- `QueryList` sends the packet ids with no count byte, although the protocol (like `Stream`) reads the first data byte as the count (see Findings).
- `Buttons` packs clean, spot, dock, hour, day, schedule and clock into bits 0 to 6. The protocol's Buttons byte has Minute at bit 3 and Clock at bit 7, so every button from hour on lands one bit low (see Findings).
- `Song`, `Play`, `Sensors`, `Stream`, `QueryList`, `SchedulingLEDs`, `DigitLEDsRaw` and `DigitLEDsASCII` validate nothing. A song's slot, its notes and its length (up to 16 notes in the protocol) all go out unchecked. The count byte is the length truncated to 8 bits.
- Reconnecting an open adaptor does not collect a close failure together with an open failure. A failed close is returned alone, no open is attempted, and the handle ends closed. So `Connect` never returns more than one error.

## Model

| member | source | states |
|---|---|---|
| `Commands.Frame` | platforms/roomba/commands.go:460-461 | What write hands to the port: the opcode first, then the data bytes unchanged, so the frame is one byte longer than the data. |
| `Commands.Start` | platforms/roomba/commands.go:26-28 | The frame decodes as the Start command (opcode 128, no data). |
| `Commands.Baud` | platforms/roomba/commands.go:59-64 | Rejected exactly when the code exceeds 11, with exactly one InvalidBaudCode error and no frame. Otherwise the frame decodes as Baud with the given code. |
| `Commands.Safe` | platforms/roomba/commands.go:73-75 | The frame decodes as Safe (131). |
| `Commands.Full` | platforms/roomba/commands.go:82-84 | The frame decodes as Full (132). |
| `Commands.Power` | platforms/roomba/commands.go:88-90 | The frame decodes as Power (133). |
| `Commands.Spot` | platforms/roomba/commands.go:93-95 | The frame decodes as Spot (134). |
| `Commands.Clean` | platforms/roomba/commands.go:98-100 | The frame decodes as Clean (135). |
| `Commands.Max` | platforms/roomba/commands.go:105-107 | The frame decodes as Max (136). |
| `Commands.Drive` | platforms/roomba/commands.go:132-148 | Accepted iff velocity is in [-500,500] and radius is in [-2000,2000] or is one of the sentinels -32768 and 32767. A rejection holds one error per violated field, velocity first, so both come back together. An accepted frame has 5 bytes and decodes to the same velocity and radius as 16-bit two's-complement values. |
| `Commands.Motors` | platforms/roomba/commands.go:170-179 | Bit i of the data byte is set iff the i-th of side brush, vacuum, main brush, side-brush-clockwise, main-brush-direction is on. Bits 5 to 7 are clear, and the frame decodes to those five flags. |
| `Commands.LEDs` | platforms/roomba/commands.go:193-202 | Bit i is set iff the i-th of debris, spot, dock, check-robot is on, with bits 4 to 7 clear. Colour and intensity follow unchanged, and the frame decodes to all six fields. |
| `Commands.Song` | platforms/roomba/commands.go:212-219 | The frame is 3 + 2n bytes: 140, slot, n mod 256, then each note's number and duration in order. Nothing is validated. The frame decodes back to the song iff n < 256. |
| `Commands.Play` | platforms/roomba/commands.go:224-227 | Any slot is sent unchecked, and the frame decodes as Play of that slot. |
| `Commands.Sensors` | platforms/roomba/commands.go:232-235 | Any packet id is sent unchecked, and the frame decodes as Sensors of that id. |
| `Commands.SeekDock` | platforms/roomba/commands.go:238-240 | The frame decodes as SeekDock (143). |
| `Commands.PWMMotors` | platforms/roomba/commands.go:252-257 | Rejected iff the vacuum duty exceeds 127, with exactly one error. Otherwise the 4-byte frame decodes back to both signed brush duties and the vacuum duty. |
| `Commands.DriveDirect` | platforms/roomba/commands.go:266-282 | Accepted iff both wheel velocities are in [-500,500]. A rejection holds one error per bad wheel, right first. An accepted 5-byte frame decodes to both velocities. |
| `Commands.DrivePWM` | platforms/roomba/commands.go:291-307 | The right-wheel error fires iff rightPWM is outside [-255,255]. The left-wheel error fires iff leftPWM < -255 or rightPWM > 255. The right-wheel error comes first and the left-wheel error last. It is accepted iff rightPWM is in range and leftPWM >= -255, and then the frame decodes to both values. |
| `Commands.DigitalOutput` | platforms/roomba/commands.go:314-323 | Bits 0 to 2 are the three outputs in argument order, bits 3 to 7 are clear, and the frame decodes to the three flags. |
| `Commands.Stream` | platforms/roomba/commands.go:327-331 | The frame is 148, the id count mod 256, then the ids unchanged. It decodes back to the id list iff there are fewer than 256 ids. |
| `Commands.QueryList` | platforms/roomba/commands.go:336-339 | As written: the frame is 149 followed by the ids with no count byte. It never decodes to the requested list. It decodes at all only when the first id equals the number of the others, and then it asks for the others only. |
| `Commands.QueryListIntended` | platforms/roomba/commands.go:336-339 | Corrected: 149, the id count mod 256, then the ids. The frame decodes iff there are fewer than 256 ids, and then to exactly the requested list. |
| `Commands.QueryListCases` | platforms/roomba/commands.go:338 | As written, [7] gives the malformed 149 7, [0] asks for no packets, and [7, 8] is malformed. The corrected [7, 8] gives 149 2 7 8, which asks for packets 7 and 8. |
| `Commands.QueryListIntendedAddsCount` | platforms/roomba/commands.go:329-339 | The corrected frame is the as-written frame of the list with its count prepended, and its data bytes are those of Stream on the same ids. |
| `Commands.PauseStream` | platforms/roomba/commands.go:343-345 | The frame decodes as stream control with "resume" off (150, 0). |
| `Commands.ResumeStream` | platforms/roomba/commands.go:349-351 | The frame decodes as stream control with "resume" on (150, 1). |
| `Commands.SendIR` | platforms/roomba/commands.go:357-359 | The frame decodes as SendIR of the given byte. |
| `Commands.SchedulingLEDs` | platforms/roomba/commands.go:378-388 | The weekday byte is sent unchecked. The next byte has bit i set iff the i-th of colon, pm, am, clock, schedule is on, with higher bits clear. |
| `Commands.DigitLEDsRaw` | platforms/roomba/commands.go:391-394 | The frame is 163 followed by the four segment bytes unchanged, and it decodes to them. |
| `Commands.DigitLEDsASCII` | platforms/roomba/commands.go:397-400 | Always 5 bytes: 164, then for each of 4 positions the message byte if the message is long enough, otherwise a space. Short messages are padded and long ones truncated. |
| `Commands.Buttons` | platforms/roomba/commands.go:403-412 | As written: bit i is set iff the i-th of clean, spot, dock, hour, day, schedule, clock is pressed, and bit 7 is clear. The robot reads this as Minute for hour, Hour for day, Day for schedule and Schedule for clock, with Clock never pressed. |
| `Commands.ButtonsIntended` | platforms/roomba/commands.go:403-412 | Corrected: each button sets its own bit of the protocol table (clean 0, spot 1, dock 2, hour 4, day 5, schedule 6, clock 7), and Minute (bit 3) stays clear. The frame decodes to exactly the pressed buttons. |
| `Commands.ButtonsShiftCases` | platforms/roomba/commands.go:405 | As written, pressing hour alone sends 165 8, which is Minute and not Hour. Pressing clock alone sends 165 64, which is Schedule and not Clock. |
| `Commands.ButtonsAgreeBelowHour` | platforms/roomba/commands.go:405 | With hour, day, schedule and clock released, the as-written and the corrected Buttons send the same frame. |
| `Commands.Schedule` | platforms/roomba/commands.go:433-443 | Always 16 bytes. Day bit i is set iff day i (Sunday first) is not the zero Time, bit 7 is clear, and bytes 2+2i and 3+2i are day i's hour and minute. The frame decodes to the active days and the times. |
| `Commands.DecodeScheduleFrame` | platforms/roomba/commands.go:433-443 | A Schedule frame with any 7-bit day byte and seven (hour, minute) pairs decodes back to that day byte's seven flags and those same pairs. |
| `Commands.ZeroScheduleFrame` | platforms/roomba/commands.go:446-449 | A 16-byte Schedule frame with no day bit set and every hour and minute zero can only be 167 followed by fifteen zero bytes. |
| `Commands.DisableSchedule` | platforms/roomba/commands.go:446-449 | Built as Schedule on seven zero Times, the frame is exactly 167 followed by fifteen zero bytes: no day scheduled and all times zero. |
| `Commands.SetDateTime` | platforms/roomba/commands.go:452-458 | The frame decodes to the time's weekday (Sunday 0), hour and minute. The zero Time is sent as Monday 00:00. |
| `Commands.Send` | platforms/roomba/commands.go:460-464 | A rejected command writes nothing and returns its violations unchanged. An accepted one writes exactly its frame and returns no error iff the port's write reported none, otherwise exactly that error. |
| `Commands.Halt` | platforms/roomba/driver.go:34-36 | Halt sends the Safe command. |
| `Commands.DriveCases` | platforms/roomba/commands.go:132-147 | Drive(501,0) gives exactly one error and no frame. Drive(600,3000) gives two errors, velocity then radius. Drive(-1,32767) sends 137 FF FF 7F FF. |
| `Commands.DrivePWMLeftCheckCases` | platforms/roomba/commands.go:295-297 | As written, (right 0, left 300) is accepted and sent as 146 0 0 1 44. (right 300, left 0) reports a left-wheel error for a valid left wheel. |
| `Commands.DrivePWMIntended` | platforms/roomba/commands.go:291-307 | Corrected check: each wheel's error fires iff that wheel's own value is outside [-255,255], right wheel first. The command is accepted iff both are in range, and then the frame decodes to both values. |
| `Commands.DrivePWMAgreesBelowLimit` | platforms/roomba/commands.go:292-297 | When neither duty cycle exceeds 255, the as-written and the corrected DrivePWM return the same result. |
| `Commands.DigitLEDsASCIICases` | platforms/roomba/commands.go:397-400 | "A" is sent as A followed by three spaces, and "ABCDE" as ABCD. |
| `Commands.SongSendsInvalidNotes` | platforms/roomba/commands.go:212-219 | A note outside the valid range is sent unchanged in a song frame. |
| `Commands.MotorsCase` | platforms/roomba/commands.go:170-178 | Side brush, main brush and main-brush-direction on gives the byte 0x15. |
| `Bytes.Low8` | platforms/roomba/commands.go:256 | Go's `uint8(x)` (equivalently `x & 0xFF`): the result is a byte congruent to x modulo 256, so only the low eight bits survive, and a value already in 0..255 is kept as it is. |
| `Bytes.HighByte` | platforms/roomba/commands.go:143-146 | `uint8((v>>8)&0xFF)` with Go's arithmetic shift: the high byte has its top bit set exactly when v is negative, and a value in -128..127 gives the sign extension 255 or 0. With LowByte it loses nothing: see SplitJoin16. |
| `Bytes.LowByte` | platforms/roomba/commands.go:143-146 | `uint8((v>>0)&0xFF)`: a byte congruent to v modulo 256, equal to v when v is 0..255. With HighByte it loses nothing: see SplitJoin16. |
| `Bytes.SplitJoin16` | platforms/roomba/commands.go:142-147 | Reading the high/low byte pair back as a 16-bit two's-complement value gives the original value. |
| `Bytes.JoinSplit16` | platforms/roomba/commands.go:142-147 | Every byte pair is the split of the value it reads as, so the split is a bijection on 16-bit values. |
| `Bytes.Int8RoundTrip` | platforms/roomba/commands.go:256 | `uint8` of a signed 8-bit duty cycle reads back as the same signed value. |
| `Bytes.TwosComplementExamples` | platforms/roomba/commands.go:127-130 | -1 splits into FF FF, and the straight-drive sentinels -32768 and 32767 into 80 00 and 7F FF. |
| `Bytes.PackBits` | platforms/roomba/commands.go:171-177 | Bit j of the packed byte is set iff j is below the flag count and flag j is true. The byte is below 2^count, so all higher bits are zero. |
| `Bytes.UnpackPack` | platforms/roomba/commands.go:171-177 | Reading the first n bits of a packed byte gives back the n flags in table order. |
| `Bytes.PackNone` | platforms/roomba/commands.go:434-439 | A list of all-false flags packs to the zero byte. |
| `Bytes.Flatten` | platforms/roomba/commands.go:435-441 | Appending pairs one by one gives 2n bytes, with pair k's first byte at 2k and its second at 2k+1. |
| `Notes.Note.Valid` | platforms/roomba/note.go:10-12 | A note is valid iff its number is between 31 and 127 inclusive. The duration is not consulted. |
| `Notes.ValidBoundaries` | platforms/roomba/note.go:10-12 | Note numbers 30 and 128 are invalid, and 31 and 127 are valid, for any duration. |
| `Notes.ValidIgnoresDuration` | platforms/roomba/note.go:10-12 | Changing a note's duration never changes whether it is valid. |
| `Errors.Push` | platforms/roomba/doc.go:12-24 | The result is the pointed-to list (empty for a nil pointer) with the error appended if there is one. Its length grows by one exactly when an error is given, and the prefix is unchanged. |
| `Errors.PushTestCases` | platforms/roomba/doc_test.go:10-26 | push(nil,nil) is empty. push(&l,nil) is l. push(nil,e) is [e]. Pushing e through a pointer to an empty list gives [e]. |
| `Errors.PushUnchecked` | platforms/roomba/adaptor.go:56-61 | The adaptor file's push appends the error, if there is one, to the list it is given and leaves the earlier entries as they were. It has no nil-pointer case. |
| `Errors.PushDeclarationsAgree` | platforms/roomba/adaptor.go:56-61 | The adaptor file's nil-unsafe push agrees with the doc.go push, the one doc_test.go exercises, on every non-nil pointer. |
| `Adaptor.New` | platforms/roomba/adaptor.go:17-22 | A new adaptor has no open handle, and Name and Port return the given name and port. NewIdentity extends this to every later lifecycle call. |
| `Adaptor.Name` | platforms/roomba/adaptor.go:25-27 | The adaptor's label. NewIdentity and IdentityStable give its contract: it is the constructor's name whatever lifecycle calls follow. |
| `Adaptor.Port` | platforms/roomba/adaptor.go:30-32 | The adaptor's port name. NewIdentity and IdentityStable give its contract: it is the constructor's port whatever lifecycle calls follow. |
| `Adaptor.Finalize` | platforms/roomba/adaptor.go:48-54 | The handle always ends cleared and the identity is unchanged. A closed adaptor returns no errors. An open one returns exactly the close error, if there is one. |
| `Adaptor.Connect` | platforms/roomba/adaptor.go:35-45 | At most one error, and identity is kept. An open handle whose close fails yields exactly that error, no open, and a closed handle. Otherwise the result is the handle OpenPort gave for (port, 115200) with no error, or the open error with no handle. |
| `Adaptor.IdentityStable` | platforms/roomba/adaptor.go:24-32 | No sequence of Connect and Finalize calls changes Name or Port. |
| `Adaptor.NewIdentity` | platforms/roomba/adaptor.go:17-32 | Name and Port return the constructor arguments after any sequence of lifecycle calls. |
| `Adaptor.FinalizeTwice` | platforms/roomba/adaptor.go:48-54 | A second Finalize is a silent no-op, whatever the close would have reported. |
| `Socket.New` | platforms/serial/socket.go:20-28 | A new socket has no open handle, Name and Port return the given name and port, and the configuration carries the given baud rate. |
| `Socket.Name` | platforms/serial/socket.go:31-33 | The socket's label. NewIdentity and IdentityStable give its contract: it is the constructor's name whatever lifecycle calls follow. |
| `Socket.Port` | platforms/serial/socket.go:36-38 | The configured port name (`config.Name`). NewIdentity and IdentityStable give its contract: it is the constructor's port whatever lifecycle calls follow. |
| `Socket.Finalize` | platforms/serial/socket.go:56-65 | The handle always ends cleared. A closed socket returns no errors, and an open one returns exactly the close error, if there is one. |
| `Socket.Connect` | platforms/serial/socket.go:41-53 | At most one error. A failed close of an open handle skips the open and leaves the socket closed. Otherwise the result is the opened handle for the socket's own config, or the open error alone. |
| `Socket.IdentityStable` | platforms/serial/socket.go:30-38 | No sequence of lifecycle calls changes Name or Port. |
| `Socket.NewIdentity` | platforms/serial/socket.go:20-38 | Name returns the given name, and Port the configured port name, for the socket's lifetime. |
| `Socket.DigitalWrite` | platforms/serial/socket.go:68-74 | An unopened socket writes nothing and returns ErrNotInitialized. An open one writes exactly the one byte and returns the write's error. |
| `Socket.DigitalRead` | platforms/serial/socket.go:77-85 | An unopened socket returns (0, ErrNotInitialized). An open one returns the byte read, in [0,255], and the read's error. |
| `Socket.ClosedAfterFinalize` | platforms/serial/socket.go:56-85 | After any Finalize, both DigitalWrite and DigitalRead refuse with ErrNotInitialized. |
| `Socket.WritableAfterConnect` | platforms/serial/socket.go:41-74 | After a Connect that returned no error, DigitalWrite puts exactly the given byte on the port. |
| `Socket.AgreesWithAdaptor` | platforms/serial/socket.go:41-65 | A socket configured for the adaptor's port at 115200 gives the same errors and the same handle as the roomba Adaptor, for every Connect and Finalize outcome. |

## Left out

- Serial I/O (`serial.OpenPort`, `Write`, `Read`, `Close`): the library is not part of this model. Its outcomes are parameters. An open either yields a handle or an error without one.
- `Commands.Send`: the byte count returned by `Write` is ignored by `write`. A short write without an error is therefore not modelled.
- `Commands.Send`: writing through an adaptor that was never connected dereferences a nil handle in Go, which panics. `Send` requires an open handle for accepted frames instead of modelling the panic.
- Go's distinction between a nil slice and an empty one: every empty error list in this code is nil, so both are the empty sequence.
- The package declares `push` twice (doc.go and adaptor.go), which Go does not compile. The doc.go version, which doc_test.go covers, is the one used. The adaptor.go version is modelled as `Errors.PushUnchecked` and proved to agree on every non-nil pointer.
- `time.Time`: only "is it the zero Time", weekday, hour and minute are modelled. There are no calendars, time zones or locations.
- Error message text: errors are tags carrying the offending argument. Serial-library failures are opaque codes.
- platforms/serial/pin.go: it only delegates to GPIO pin drivers, and its Connect and Finalize are empty stubs.
- platforms/serial/serial.go: only an interface declaration and the `ErrNotInitialized` value, which is the `NotInitialized` tag.
- platforms/roomba/driver.go: the framework's event and command registries, `Name`, and `Connection` are plumbing. `Halt` is modelled.
- examples/roomba.go: process wiring with sleeps.
- Concurrency: the driver issues one call at a time, and nothing here is shared.
- The baud-code-to-rate table in the `Baud` comment is documentation only, and the code never consults it.
- `Bytes.PackBits` requires at most 8 flags. This is the width of the `uint8` accumulator, and no caller passes more.

## Findings

| source | as written | input that shows it | evidently intended | confidence | as-written member | corrected member |
|---|---|---|---|---|---|---|
| platforms/roomba/commands.go:295 | The left-wheel check is `leftPWM < -255 \|\| rightPWM > 255`. | DrivePWM(0, 300) is accepted and sends 146 0 0 1 44. DrivePWM(300, 0) reports an invalid left PWM of 0. | `leftPWM < -255 \|\| leftPWM > 255`, mirroring the right-wheel check on the line above. | high (not executed) | `Commands.DrivePWM`, shown by `Commands.DrivePWMLeftCheckCases` | `Commands.DrivePWMIntended`, related by `Commands.DrivePWMAgreesBelowLimit` |
| platforms/roomba/commands.go:338 | `r.write(149, packetIDs...)` sends the ids with no count byte. | QueryList([7, 8]) sends 149 7 8, which the protocol reads as a count of 7 followed by one id, so the frame is malformed. QueryList([0]) asks for no packets. | `149, len(packetIDs), packetIDs...`, as Stream does a few lines above. | medium (not executed; the Open Interface PDF linked at commands.go:10-11 is not part of the repository) | `Commands.QueryList`, shown by `Commands.QueryListCases` | `Commands.QueryListIntended`, related by `Commands.QueryListIntendedAddsCount` |
| platforms/roomba/commands.go:405 | `args := []bool{clean, spot, dock, hour, day, schedule, clock}` puts hour on bit 3. | Buttons with only hour pressed sends 165 8, bit 3, which the Open Interface Buttons table assigns to Minute. Clock alone sends 165 64, which is Schedule. | clean, spot, dock, minute, hour, day, schedule, clock on bits 0 to 7, with no minute argument so bit 3 stays clear. | medium (not executed; the bit table is that of the Open Interface PDF linked at commands.go:10-11, which is not part of the repository) | `Commands.Buttons`, shown by `Commands.ButtonsShiftCases` | `Commands.ButtonsIntended`, related by `Commands.ButtonsAgreeBelowHour` |
