/**
 The roomba Driver's Open Interface commands. Each command validates its
 arguments (when it validates at all) and produces the frame `write` would
 send: the opcode byte followed by the exact data bytes. Every frame is
 checked against the decoder of module Wire. It decodes to the command asked
 for, except a Song or Stream of 256 or more items (whose count byte wraps),
 and the as-written QueryList and Buttons, whose frames the robot reads
 differently; for those the contracts say what it reads instead.
 */
module Commands {
  import opened Bytes
  import opened Errors
  import opened Notes
  import Wire
  import Adaptor

  /** Go's `time.Weekday`: Sunday is 0. */
  type Weekday = d: int | 0 <= d < 7

  type Hour = h: int | 0 <= h < 24

  type Minute = m: int | 0 <= m < 60

  /** The parts of a Go `time.Time` the commands read. `Zero` is the zero
      Time (January 1 of year 1, 00:00 UTC, a Monday); any other instant is
      seen only through its weekday, hour and minute. */
  datatype Time = Zero | Instant(weekday: Weekday, hour: Hour, minute: Minute) {

    predicate IsZero()
    {
      Zero?
    }

    function WeekdayOf(): Weekday
    {
      if Zero? then 1 else weekday
    }

    function HourOf(): Hour
    {
      if Zero? then 0 else hour
    }

    function MinuteOf(): Minute
    {
      if Zero? then 0 else minute
    }
  }

  /** `write(command, data...)` before it reaches the port: the opcode
      followed by the data bytes. */
  function Frame(opcode: byte, data: seq<byte>): (f: seq<byte>)
    ensures |f| == 1 + |data| && f[0] == opcode && f[1..] == data
  {
    [opcode] + data
  }

  // ---------------------------------------------------------------------
  // Range tables of the validating commands

  /** Drive and DriveDirect velocities, in mm/s. */
  predicate VelocityInRange(v: int16)
  {
    -500 <= v <= 500
  }

  /** Drive radii, in mm, including the two "drive straight" sentinels. */
  predicate RadiusAccepted(r: int16)
  {
    -2000 <= r <= 2000 || r == -32768 || r == 32767
  }

  /** DrivePWM wheel duty cycles. */
  predicate PwmInRange(p: int16)
  {
    -255 <= p <= 255
  }

  // ---------------------------------------------------------------------
  // Commands without data

  function Start(): (f: seq<byte>)
    ensures Wire.Decode(f) == Some(Wire.Start)
  {
    Frame(128, [])
  }

  function Safe(): (f: seq<byte>)
    ensures Wire.Decode(f) == Some(Wire.Safe)
  {
    Frame(131, [])
  }

  function Full(): (f: seq<byte>)
    ensures Wire.Decode(f) == Some(Wire.Full)
  {
    Frame(132, [])
  }

  function Power(): (f: seq<byte>)
    ensures Wire.Decode(f) == Some(Wire.Power)
  {
    Frame(133, [])
  }

  function Spot(): (f: seq<byte>)
    ensures Wire.Decode(f) == Some(Wire.Spot)
  {
    Frame(134, [])
  }

  function Clean(): (f: seq<byte>)
    ensures Wire.Decode(f) == Some(Wire.Clean)
  {
    Frame(135, [])
  }

  function Max(): (f: seq<byte>)
    ensures Wire.Decode(f) == Some(Wire.Max)
  {
    Frame(136, [])
  }

  function SeekDock(): (f: seq<byte>)
    ensures Wire.Decode(f) == Some(Wire.SeekDock)
  {
    Frame(143, [])
  }

  /** The Driver's Halt: returning the robot to Safe mode. */
  function Halt(): (f: seq<byte>)
    ensures Wire.Decode(f) == Some(Wire.Safe)
  {
    Safe()
  }

  // ---------------------------------------------------------------------
  // Commands with one unchecked data byte

  /** Play: no check that the song slot exists. */
  function Play(songNumber: byte): (f: seq<byte>)
    ensures Wire.Decode(f) == Some(Wire.Play(songNumber))
  {
    Frame(141, [songNumber])
  }

  /** Sensors: no check that the packet id exists. */
  function Sensors(packetID: byte): (f: seq<byte>)
    ensures Wire.Decode(f) == Some(Wire.Sensors(packetID))
  {
    Frame(142, [packetID])
  }

  function SendIR(msg: byte): (f: seq<byte>)
    ensures Wire.Decode(f) == Some(Wire.SendIr(msg))
  {
    Frame(151, [msg])
  }

  function PauseStream(): (f: seq<byte>)
    ensures Wire.Decode(f) == Some(Wire.StreamControl(false))
  {
    Frame(150, [0x00])
  }

  function ResumeStream(): (f: seq<byte>)
    ensures Wire.Decode(f) == Some(Wire.StreamControl(true))
  {
    Frame(150, [0x01])
  }

  // ---------------------------------------------------------------------
  // Validating commands

  /** Baud: codes 0 through 11 are sent as given; any other code is
      rejected with one error and nothing is sent. */
  function Baud(baudCode: byte): (r: Checked<seq<byte>>)
    ensures r.Rejected? <==> baudCode > 11
    ensures r.Rejected? ==> r.errors == [InvalidBaudCode(baudCode)]
    ensures r.Accepted? ==> Wire.Decode(r.value) == Some(Wire.Baud(baudCode))
  {
    if baudCode > 11 then
      Rejected(Push(None, Some(InvalidBaudCode(baudCode))))
    else
      Accepted(Frame(129, [baudCode]))
  }

  /** Drive: one error per violated field, velocity first; with no error the
      frame carries both values as big-endian two's-complement pairs. */
  function Drive(velocity: int16, radius: int16): (r: Checked<seq<byte>>)
    ensures r.Accepted? <==> VelocityInRange(velocity) && RadiusAccepted(radius)
    ensures r.Accepted? ==> |r.value| == 5 && Wire.Decode(r.value) == Some(Wire.Drive(velocity, radius))
    ensures r.Rejected? ==>
      && (InvalidVelocity(velocity) in r.errors <==> !VelocityInRange(velocity))
      && (InvalidRadius(radius) in r.errors <==> !RadiusAccepted(radius))
      && |r.errors| == (if VelocityInRange(velocity) then 0 else 1) + (if RadiusAccepted(radius) then 0 else 1)
      && (!VelocityInRange(velocity) ==> r.errors[0] == InvalidVelocity(velocity))
  {
    var velocityErrs := if velocity < -500 || velocity > 500 then [InvalidVelocity(velocity)] else [];
    var errs := if (radius < -2000 || radius > 2000) && radius != -32768 && radius != 32767
      then velocityErrs + [InvalidRadius(radius)] else velocityErrs;
    if errs != [] then
      Rejected(errs)
    else
      SplitJoin16(velocity);
      SplitJoin16(radius);
      Accepted(Frame(137, [HighByte(velocity), LowByte(velocity), HighByte(radius), LowByte(radius)]))
  }

  /** PWMMotors: a vacuum duty cycle above 127 is rejected; the two brush
      duty cycles are sent as two's-complement bytes without a check. */
  function PWMMotors(mainBrushPWM: int8, sideBrushPWM: int8, vacuumPWM: byte): (r: Checked<seq<byte>>)
    ensures r.Rejected? <==> vacuumPWM > 127
    ensures r.Rejected? ==> r.errors == [InvalidVacuumPwm(vacuumPWM)]
    ensures r.Accepted? ==> |r.value| == 4 && Wire.Decode(r.value) == Some(Wire.PwmMotors(mainBrushPWM, sideBrushPWM, vacuumPWM))
  {
    if vacuumPWM > 127 then
      Rejected([InvalidVacuumPwm(vacuumPWM)])
    else
      Int8RoundTrip(mainBrushPWM);
      Int8RoundTrip(sideBrushPWM);
      Accepted(Frame(144, [Low8(mainBrushPWM), Low8(sideBrushPWM), vacuumPWM]))
  }

  /** DriveDirect: one error per wheel velocity outside [-500, 500], right
      wheel first; with no error both are sent, right wheel first. */
  function DriveDirect(rightVelocity: int16, leftVelocity: int16): (r: Checked<seq<byte>>)
    ensures r.Accepted? <==> VelocityInRange(rightVelocity) && VelocityInRange(leftVelocity)
    ensures r.Accepted? ==> |r.value| == 5 && Wire.Decode(r.value) == Some(Wire.DriveDirect(rightVelocity, leftVelocity))
    ensures r.Rejected? ==>
      && (InvalidRightVelocity(rightVelocity) in r.errors <==> !VelocityInRange(rightVelocity))
      && (InvalidLeftVelocity(leftVelocity) in r.errors <==> !VelocityInRange(leftVelocity))
      && |r.errors| == (if VelocityInRange(rightVelocity) then 0 else 1) + (if VelocityInRange(leftVelocity) then 0 else 1)
      && (!VelocityInRange(rightVelocity) ==> r.errors[0] == InvalidRightVelocity(rightVelocity))
  {
    var rightErrs := if rightVelocity < -500 || rightVelocity > 500 then [InvalidRightVelocity(rightVelocity)] else [];
    var errs := if leftVelocity < -500 || leftVelocity > 500 then rightErrs + [InvalidLeftVelocity(leftVelocity)] else rightErrs;
    if errs != [] then
      Rejected(errs)
    else
      SplitJoin16(rightVelocity);
      SplitJoin16(leftVelocity);
      Accepted(Frame(145, [HighByte(rightVelocity), LowByte(rightVelocity), HighByte(leftVelocity), LowByte(leftVelocity)]))
  }

  /** DrivePWM as the Driver does it: the left-wheel check tests
      `leftPWM < -255 || rightPWM > 255`, so a left duty cycle above 255 on
      its own passes and is sent, and a right one above 255 also raises a
      left-wheel error. */
  function DrivePWM(rightPWM: int16, leftPWM: int16): (r: Checked<seq<byte>>)
    ensures r.Accepted? <==> PwmInRange(rightPWM) && leftPWM >= -255
    ensures r.Accepted? ==> |r.value| == 5 && Wire.Decode(r.value) == Some(Wire.DrivePwm(rightPWM, leftPWM))
    ensures r.Rejected? ==>
      && (InvalidRightPwm(rightPWM) in r.errors <==> !PwmInRange(rightPWM))
      && (InvalidLeftPwm(leftPWM) in r.errors <==> leftPWM < -255 || rightPWM > 255)
      && |r.errors| == (if PwmInRange(rightPWM) then 0 else 1) + (if leftPWM < -255 || rightPWM > 255 then 1 else 0)
      && (!PwmInRange(rightPWM) ==> r.errors[0] == InvalidRightPwm(rightPWM))
      && (leftPWM < -255 || rightPWM > 255 ==> r.errors[|r.errors| - 1] == InvalidLeftPwm(leftPWM))
  {
    var rightErrs := if rightPWM < -255 || rightPWM > 255 then [InvalidRightPwm(rightPWM)] else [];
    var errs := if leftPWM < -255 || rightPWM > 255 then rightErrs + [InvalidLeftPwm(leftPWM)] else rightErrs;
    if errs != [] then
      Rejected(errs)
    else
      SplitJoin16(rightPWM);
      SplitJoin16(leftPWM);
      Accepted(Frame(146, [HighByte(rightPWM), LowByte(rightPWM), HighByte(leftPWM), LowByte(leftPWM)]))
  }

  /** DrivePWM with the left-wheel check testing `leftPWM`, as its error
      message and the right-wheel check show was meant: each wheel is
      rejected exactly when its own duty cycle is outside [-255, 255]. */
  function DrivePWMIntended(rightPWM: int16, leftPWM: int16): (r: Checked<seq<byte>>)
    ensures r.Accepted? <==> PwmInRange(rightPWM) && PwmInRange(leftPWM)
    ensures r.Accepted? ==> |r.value| == 5 && Wire.Decode(r.value) == Some(Wire.DrivePwm(rightPWM, leftPWM))
    ensures r.Rejected? ==>
      && (InvalidRightPwm(rightPWM) in r.errors <==> !PwmInRange(rightPWM))
      && (InvalidLeftPwm(leftPWM) in r.errors <==> !PwmInRange(leftPWM))
      && |r.errors| == (if PwmInRange(rightPWM) then 0 else 1) + (if PwmInRange(leftPWM) then 0 else 1)
      && (!PwmInRange(rightPWM) ==> r.errors[0] == InvalidRightPwm(rightPWM))
      && (!PwmInRange(leftPWM) ==> r.errors[|r.errors| - 1] == InvalidLeftPwm(leftPWM))
  {
    var rightErrs := if rightPWM < -255 || rightPWM > 255 then [InvalidRightPwm(rightPWM)] else [];
    var errs := if leftPWM < -255 || leftPWM > 255 then rightErrs + [InvalidLeftPwm(leftPWM)] else rightErrs;
    if errs != [] then
      Rejected(errs)
    else
      SplitJoin16(rightPWM);
      SplitJoin16(leftPWM);
      Accepted(Frame(146, [HighByte(rightPWM), LowByte(rightPWM), HighByte(leftPWM), LowByte(leftPWM)]))
  }

  // ---------------------------------------------------------------------
  // Bitfield commands

  /** Motors: bit i of the data byte is the i-th of side brush, vacuum,
      main brush, side brush clockwise, main brush direction (the order of
      the protocol's table, not of the arguments); bits 5 to 7 are clear. */
  function Motors(mainBrushDirection: bool, sideBrushClockwise: bool, mainBrush: bool, vacuum: bool, sideBrush: bool): (f: seq<byte>)
    ensures |f| == 2 && f[0] == 138
    ensures forall i: nat {:trigger Bit(f[1], i)} ::
      Bit(f[1], i) <==> i < 5 && [sideBrush, vacuum, mainBrush, sideBrushClockwise, mainBrushDirection][i]
    ensures Wire.Decode(f) == Some(Wire.Motors(sideBrush, vacuum, mainBrush, sideBrushClockwise, mainBrushDirection))
  {
    var args := [sideBrush, vacuum, mainBrush, sideBrushClockwise, mainBrushDirection];
    UnpackPack(args);
    Frame(138, [PackBits(args)])
  }

  /** LEDs: bit i of the LED byte is the i-th of debris, spot, dock, check
      robot; bits 4 to 7 are clear; colour and intensity follow unchanged. */
  function LEDs(checkRobot: bool, dock: bool, spot: bool, debris: bool, cleanPowerColor: byte, cleanPowerIntensity: byte): (f: seq<byte>)
    ensures |f| == 4 && f[0] == 139 && f[2] == cleanPowerColor && f[3] == cleanPowerIntensity
    ensures forall i: nat {:trigger Bit(f[1], i)} ::
      Bit(f[1], i) <==> i < 4 && [debris, spot, dock, checkRobot][i]
    ensures Wire.Decode(f) == Some(Wire.Leds(debris, spot, dock, checkRobot, cleanPowerColor, cleanPowerIntensity))
  {
    var args := [debris, spot, dock, checkRobot];
    UnpackPack(args);
    Frame(139, [PackBits(args), cleanPowerColor, cleanPowerIntensity])
  }

  /** DigitalOutput: bits 0 to 2 are the three output pins; bits 3 to 7
      are clear. */
  function DigitalOutput(bit1: bool, bit2: bool, bit3: bool): (f: seq<byte>)
    ensures |f| == 2 && f[0] == 147
    ensures forall i: nat {:trigger Bit(f[1], i)} :: Bit(f[1], i) <==> i < 3 && [bit1, bit2, bit3][i]
    ensures Wire.Decode(f) == Some(Wire.DigitalOutput(bit1, bit2, bit3))
  {
    var args := [bit1, bit2, bit3];
    UnpackPack(args);
    Frame(147, [PackBits(args)])
  }

  /** SchedulingLEDs: the weekday byte is sent unchecked, then a byte whose
      bit i is the i-th of colon, pm, am, clock, schedule. */
  function SchedulingLEDs(weekday: byte, schedule: bool, clock: bool, am: bool, pm: bool, colon: bool): (f: seq<byte>)
    ensures |f| == 3 && f[0] == 162 && f[1] == weekday
    ensures forall i: nat {:trigger Bit(f[2], i)} :: Bit(f[2], i) <==> i < 5 && [colon, pm, am, clock, schedule][i]
    ensures Wire.Decode(f) == Some(Wire.SchedulingLeds(weekday, colon, pm, am, clock, schedule))
  {
    var args := [colon, pm, am, clock, schedule];
    UnpackPack(args);
    Frame(162, [weekday, PackBits(args)])
  }

  /** Buttons as the Driver does it: bit i is the i-th of clean, spot, dock,
      hour, day, schedule, clock, and bit 7 is clear. The protocol's Buttons
      byte has Minute at bit 3, which the argument list leaves out, so from
      hour on every button lands one bit low: the robot sees Minute for
      hour, Hour for day, Day for schedule and Schedule for clock, and
      Clock is never pressed. */
  function Buttons(clock: bool, schedule: bool, day: bool, hour: bool, dock: bool, spot: bool, clean: bool): (f: seq<byte>)
    ensures |f| == 2 && f[0] == 165
    ensures forall i: nat {:trigger Bit(f[1], i)} ::
      Bit(f[1], i) <==> i < 7 && [clean, spot, dock, hour, day, schedule, clock][i]
    ensures Wire.Decode(f) == Some(Wire.Buttons(clean, spot, dock, hour, day, schedule, clock, false))
  {
    var args := [clean, spot, dock, hour, day, schedule, clock];
    PackPadded(args);
    UnpackPack(args + [false]);
    Frame(165, [PackBits(args)])
  }

  /** Buttons with each named button on its own bit of the protocol's table
      (clean, spot, dock, minute, hour, day, schedule, clock from bit 0). The
      Driver's signature has no minute button, so bit 3 stays clear. */
  function ButtonsIntended(clock: bool, schedule: bool, day: bool, hour: bool, dock: bool, spot: bool, clean: bool): (f: seq<byte>)
    ensures |f| == 2 && f[0] == 165
    ensures forall i: nat {:trigger Bit(f[1], i)} ::
      Bit(f[1], i) <==> i < 8 && [clean, spot, dock, false, hour, day, schedule, clock][i]
    ensures Wire.Decode(f) == Some(Wire.Buttons(clean, spot, dock, false, hour, day, schedule, clock))
  {
    var args := [clean, spot, dock, false, hour, day, schedule, clock];
    UnpackPack(args);
    Frame(165, [PackBits(args)])
  }

  /** Pressing hour through the Driver presses Minute on the robot, and
      pressing clock presses Schedule. */
  lemma ButtonsShiftCases()
    ensures Buttons(false, false, false, true, false, false, false) == [165, 8]
    ensures Wire.Decode([165, 8]).value.minute && !Wire.Decode([165, 8]).value.hour
    ensures Buttons(true, false, false, false, false, false, false) == [165, 64]
    ensures Wire.Decode([165, 64]).value.schedule && !Wire.Decode([165, 64]).value.clock
  {
    var hourOnly := [false, false, false, true, false, false, false];
    var clockOnly := [false, false, false, false, false, false, true];
    forall j: nat { NoBitsOfZero(j); }
    assert Pow2(3) == 8 && Pow2(6) == 64;
    BitsOfAddedPower(0, 3, 8);
    BitsOfAddedPower(0, 6, 64);
    BitsDetermineByte(PackBits(hourOnly), 8);
    BitsDetermineByte(PackBits(clockOnly), 64);
  }

  /** The two agree on the buttons below the missing Minute bit. */
  lemma ButtonsAgreeBelowHour(dock: bool, spot: bool, clean: bool)
    ensures Buttons(false, false, false, false, dock, spot, clean) == ButtonsIntended(false, false, false, false, dock, spot, clean)
  {
    var b := Buttons(false, false, false, false, dock, spot, clean)[1];
    var c := ButtonsIntended(false, false, false, false, dock, spot, clean)[1];
    assert forall i: nat :: Bit(b, i) <==> Bit(c, i);
    BitsDetermineByte(b, c);
  }

  // ---------------------------------------------------------------------
  // Variable-length commands

  /** A song's notes as (number, duration) byte pairs. */
  function NotePairs(notes: seq<Note>): (pairs: seq<(byte, byte)>)
    ensures |pairs| == |notes|
  {
    seq(|notes|, (k: int) requires 0 <= k < |notes| => (notes[k].number, notes[k].duration))
  }

  /** Song: slot, then the note count truncated to a byte, then each note's
      number and duration. Nothing is validated: not the slot, not the
      notes, not the count. The frame decodes back to the song exactly when
      the count byte is the true count, that is, below 256 notes. */
  function Song(songNumber: byte, notes: seq<Note>): (f: seq<byte>)
    ensures |f| == 3 + 2 * |notes|
    ensures f[0] == 140 && f[1] == songNumber && f[2] == |notes| % 256
    ensures forall k :: 0 <= k < |notes| ==> f[3 + 2 * k] == notes[k].number && f[4 + 2 * k] == notes[k].duration
    ensures Wire.Decode(f).Some? <==> |notes| < 256
    ensures |notes| < 256 ==> Wire.Decode(f) == Some(Wire.Song(songNumber, notes))
  {
    var body := Flatten(NotePairs(notes));
    var f := Frame(140, [songNumber, Low8(|notes|)] + body);
    assert f[3..] == body;
    assert |notes| < 256 ==> Wire.Decode(f) == Some(Wire.Song(songNumber, notes)) by {
      if |notes| < 256 {
        var d := f[1..];
        var decoded := seq(|notes|, (k: int) requires 0 <= k < |notes| => Note(d[2 + 2 * k], d[3 + 2 * k]));
        assert forall k :: 0 <= k < |notes| ==> decoded[k] == notes[k];
        assert decoded == notes;
      }
    }
    f
  }

  /** Stream: the packet count truncated to a byte, then the packet ids,
      unchecked. */
  function Stream(packetIDs: seq<byte>): (f: seq<byte>)
    ensures |f| == 2 + |packetIDs| && f[0] == 148 && f[1] == |packetIDs| % 256 && f[2..] == packetIDs
    ensures Wire.Decode(f).Some? <==> |packetIDs| < 256
    ensures |packetIDs| < 256 ==> Wire.Decode(f) == Some(Wire.Stream(packetIDs))
  {
    var f := Frame(148, [Low8(|packetIDs|)] + packetIDs);
    assert f[2..] == packetIDs;
    f
  }

  /** QueryList as the Driver does it: the packet ids with no count byte.
      The protocol reads the first data byte as the count, so the frame
      never asks for the list it was given: it is either malformed or, when
      the first id happens to equal the number of the others, a request for
      the others only. */
  function QueryList(packetIDs: seq<byte>): (f: seq<byte>)
    ensures |f| == 1 + |packetIDs| && f[0] == 149 && f[1..] == packetIDs
    ensures Wire.Decode(f) != Some(Wire.QueryList(packetIDs))
    ensures Wire.Decode(f).Some? <==> |packetIDs| >= 1 && packetIDs[0] as int == |packetIDs| - 1
    ensures Wire.Decode(f).Some? ==> Wire.Decode(f) == Some(Wire.QueryList(packetIDs[1..]))
  {
    Frame(149, packetIDs)
  }

  /** QueryList with the count byte the protocol requires, computed as
      Stream computes it: the number of ids truncated to a byte. */
  function QueryListIntended(packetIDs: seq<byte>): (f: seq<byte>)
    ensures |f| == 2 + |packetIDs| && f[0] == 149 && f[1] == |packetIDs| % 256 && f[2..] == packetIDs
    ensures Wire.Decode(f).Some? <==> |packetIDs| < 256
    ensures |packetIDs| < 256 ==> Wire.Decode(f) == Some(Wire.QueryList(packetIDs))
  {
    var f := Frame(149, [Low8(|packetIDs|)] + packetIDs);
    assert f[2..] == packetIDs;
    f
  }

  /** Querying packet 7 alone asks the robot for no packets at all, and
      querying packets 7 and 8 sends a frame the robot cannot parse. */
  lemma QueryListCases()
    ensures QueryList([7]) == [149, 7] && Wire.Decode([149, 7]).None?
    ensures QueryList([0]) == [149, 0] && Wire.Decode([149, 0]) == Some(Wire.QueryList([]))
    ensures QueryList([7, 8]) == [149, 7, 8] && Wire.Decode([149, 7, 8]).None?
    ensures QueryListIntended([7, 8]) == [149, 2, 7, 8] && Wire.Decode([149, 2, 7, 8]) == Some(Wire.QueryList([7, 8]))
  {
    assert [149, 0][1..] == [0] && [0][1..] == [];
    assert [149, 2, 7, 8][1..][1..] == [7, 8];
  }

  /** The corrected frame is the as-written one with the count prepended,
      and carries its ids exactly as Stream does. */
  lemma QueryListIntendedAddsCount(packetIDs: seq<byte>)
    ensures QueryListIntended(packetIDs) == QueryList([Low8(|packetIDs|)] + packetIDs)
    ensures QueryListIntended(packetIDs)[1..] == Stream(packetIDs)[1..]
  {
  }

  /** DigitLEDsRaw: the four segment bytes, unchecked. */
  function DigitLEDsRaw(digit: seq<byte>): (f: seq<byte>)
    requires |digit| == 4
    ensures |f| == 5 && f[0] == 163 && f[1..] == digit
    ensures Wire.Decode(f) == Some(Wire.DigitLedsRaw(digit))
  {
    Frame(163, digit[..4])
  }

  /** ASCII space. */
  const SPACE: byte := 32

  /** DigitLEDsASCII: always exactly four characters, the message's first
      four bytes, padded with spaces when it is shorter. A Go string is
      its byte sequence. */
  function DigitLEDsASCII(message: seq<byte>): (f: seq<byte>)
    ensures |f| == 5 && f[0] == 164
    ensures forall i :: 0 <= i < 4 ==> f[1 + i] == (if i < |message| then message[i] else SPACE)
    ensures Wire.Decode(f) == Some(Wire.DigitLedsAscii(f[1..]))
  {
    Frame(164, (message + [SPACE, SPACE, SPACE, SPACE])[..4])
  }

  // ---------------------------------------------------------------------
  // Schedule and clock

  /** Which of the days are scheduled: those that are not the zero Time. */
  function ActiveDays(days: seq<Time>): (active: seq<bool>)
    ensures |active| == |days|
    ensures forall i :: 0 <= i < |days| ==> active[i] == !days[i].IsZero()
  {
    seq(|days|, (i: int) requires 0 <= i < |days| => !days[i].IsZero())
  }

  /** Every day's hour and minute, zero Times included. */
  function DayTimes(days: seq<Time>): (times: seq<(byte, byte)>)
    ensures |times| == |days|
    ensures forall i :: 0 <= i < |days| ==> times[i] == (days[i].HourOf() as byte, days[i].MinuteOf() as byte)
  {
    seq(|days|, (i: int) requires 0 <= i < |days| => (days[i].HourOf() as byte, days[i].MinuteOf() as byte))
  }

  /** A schedule frame decodes to its day bits, read as seven flags, and
      its seven (hour, minute) pairs. */
  lemma DecodeScheduleFrame(daybits: byte, times: seq<(byte, byte)>)
    requires daybits < Pow2(7) && |times| == 7
    ensures Wire.Decode(Frame(167, [daybits] + Flatten(times))) == Some(Wire.Schedule(UnpackBits(daybits, 7), times))
  {
    var d := [daybits] + Flatten(times);
    assert Frame(167, d)[1..] == d;
    var decoded := seq(7, (i: int) requires 0 <= i < 7 => (d[1 + 2 * i], d[2 + 2 * i]));
    assert forall i :: 0 <= i < 7 ==> decoded[i] == times[i];
    assert decoded == times;
  }

  /** Schedule: a day byte whose bit i is set exactly when day i (Sunday
      first) is not the zero Time, then every day's hour and minute, zero
      Times included. */
  function Schedule(days: seq<Time>): (f: seq<byte>)
    requires |days| == 7
    ensures |f| == 16 && f[0] == 167
    ensures forall i: nat {:trigger Bit(f[1], i)} :: Bit(f[1], i) <==> i < 7 && !days[i].IsZero()
    ensures forall i :: 0 <= i < 7 ==> f[2 + 2 * i] == days[i].HourOf() && f[3 + 2 * i] == days[i].MinuteOf()
    ensures Wire.Decode(f) == Some(Wire.Schedule(ActiveDays(days), DayTimes(days)))
  {
    var active := ActiveDays(days);
    var times := DayTimes(days);
    var daybits := PackBits(active);
    var daybytes := Flatten(times);
    var f := Frame(167, [daybits] + daybytes);
    assert forall i :: 0 <= i < 7 ==> f[2 + 2 * i] == daybytes[2 * i] && f[3 + 2 * i] == daybytes[2 * i + 1];
    UnpackPack(active);
    DecodeScheduleFrame(daybits, times);
    f
  }

  /** The only frame with Schedule's layout whose day byte and times are
      all zero: the opcode followed by fifteen zero bytes. */
  lemma ZeroScheduleFrame(f: seq<byte>)
    requires |f| == 16 && f[0] == 167
    requires forall i: nat {:trigger Bit(f[1], i)} :: !Bit(f[1], i)
    requires forall i :: 0 <= i < 7 ==> f[2 + 2 * i] == 0 && f[3 + 2 * i] == 0
    ensures f == [167] + seq(15, _ => 0)
  {
    NoBitsIsZero(f[1]);
    forall k | 1 <= k < 16
      ensures f[k] == 0
    {
      if k >= 2 {
        var i := (k - 2) / 2;
        assert k == 2 + 2 * i || k == 3 + 2 * i;
      }
    }
  }

  /** DisableSchedule: Schedule on seven zero Times, which is the opcode
      followed by fifteen zero bytes. */
  function DisableSchedule(): (f: seq<byte>)
    ensures f == [167] + seq(15, _ => 0)
  {
    var days := seq(7, _ => Zero);
    var f := Schedule(days);
    assert forall i :: 0 <= i < 7 ==> days[i].HourOf() == 0 && days[i].MinuteOf() == 0;
    ZeroScheduleFrame(f);
    f
  }

  /** SetDateTime: weekday (Sunday is 0), hour and minute. */
  function SetDateTime(dateTime: Time): (f: seq<byte>)
    ensures Wire.Decode(f) == Some(Wire.SetDateTime(dateTime.WeekdayOf() as byte, dateTime.HourOf() as byte, dateTime.MinuteOf() as byte))
    ensures dateTime.IsZero() ==> f == [168, 1, 0, 0]
  {
    Frame(168, [dateTime.WeekdayOf() as byte, dateTime.HourOf() as byte, dateTime.MinuteOf() as byte])
  }

  // ---------------------------------------------------------------------
  // Worked cases

  /** Both Drive fields are reported when both are out of range, one
      field alone gives one error, and -1 travels as 0xFF 0xFF. */
  lemma DriveCases()
    ensures Drive(501, 0) == Rejected([InvalidVelocity(501)])
    ensures Drive(600, 3000) == Rejected([InvalidVelocity(600), InvalidRadius(3000)])
    ensures Drive(-1, 32767) == Accepted([137, 0xFF, 0xFF, 0x7F, 0xFF])
  {
    TwosComplementExamples();
    assert Frame(137, [0xFF, 0xFF, 0x7F, 0xFF]) == [137, 0xFF, 0xFF, 0x7F, 0xFF];
  }

  /** DrivePWM as written sends a left duty cycle of 300 when the right one
      is in range, and blames a valid left wheel when the right one is too
      large; the intended check rejects the first and not the second. */
  lemma DrivePWMLeftCheckCases()
    ensures DrivePWM(0, 300) == Accepted([146, 0, 0, 1, 44])
    ensures DrivePWM(300, 0) == Rejected([InvalidRightPwm(300), InvalidLeftPwm(0)])
    ensures DrivePWMIntended(0, 300) == Rejected([InvalidLeftPwm(300)])
    ensures DrivePWMIntended(300, 0) == Rejected([InvalidRightPwm(300)])
  {
    assert HighByte(0) == 0 && LowByte(0) == 0;
    assert HighByte(300) == 1 && LowByte(300) == 44;
    assert Frame(146, [0, 0, 1, 44]) == [146, 0, 0, 1, 44];
  }

  /** The two DrivePWM checks differ only when a duty cycle is above 255:
      below that they return the same result on every input. */
  lemma DrivePWMAgreesBelowLimit(rightPWM: int16, leftPWM: int16)
    requires rightPWM <= 255 && leftPWM <= 255
    ensures DrivePWM(rightPWM, leftPWM) == DrivePWMIntended(rightPWM, leftPWM)
  {
  }

  /** A one-letter message is padded with three spaces; a five-letter one
      loses its last letter. */
  lemma DigitLEDsASCIICases()
    ensures DigitLEDsASCII([65]) == [164, 65, 32, 32, 32]
    ensures DigitLEDsASCII([65, 66, 67, 68, 69]) == [164, 65, 66, 67, 68]
  {
  }

  /** Song sends a note the robot cannot play without complaint. */
  lemma SongSendsInvalidNotes()
    ensures !Note(0, 0).Valid()
    ensures Song(9, [Note(0, 0)]) == [140, 9, 1, 0, 0]
  {
  }

  /** Side brush, main brush and main brush direction on: bits 0, 2 and 4. */
  lemma MotorsCase()
    ensures Motors(true, false, true, false, true) == [138, 0x15]
  {
  }

  // ---------------------------------------------------------------------
  // Sending

  /** The bytes a Driver call put on the port, and the errors it returned. */
  datatype Sent = Sent(written: seq<byte>, errors: seq<Error>)

  /** One Driver call end to end. A rejected command writes nothing and
      returns all its violations. An accepted one goes through `write`:
      its frame is handed to the adaptor's handle, whose Write reports
      `writeErr`, and that error (if any) is all the call returns. The
      handle must be open: writing through a closed adaptor dereferences a
      nil handle. */
  function Send(a: Adaptor.State, c: Checked<seq<byte>>, writeErr: Option<Error>): (s: Sent)
    requires c.Accepted? ==> a.sp.Some?
    ensures c.Rejected? ==> s.written == [] && s.errors == c.errors
    ensures c.Accepted? ==> s.written == c.value && |s.errors| <= 1
    ensures c.Accepted? ==> (s.errors == [] <==> writeErr.None?)
    ensures c.Accepted? && writeErr.Some? ==> s.errors == [writeErr.value]
  {
    match c
    case Rejected(errs) => Sent([], errs)
    case Accepted(frame) => Sent(frame, Push(Some([]), writeErr))
  }
}
