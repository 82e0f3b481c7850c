/**
 The Open Interface wire format read from the robot's side: which command a
 complete frame (opcode byte followed by its data bytes) stands for, or none
 for a frame the robot cannot parse. Opcodes, data lengths, two's-complement
 fields, count bytes and most bit orders come from the protocol's command
 table, and every encoder's contract says what its frame decodes to. Two
 layouts follow the Open Interface document where the Driver departs from
 it: a query list carries a count byte, and the Buttons byte has Minute at
 bit 3. The bit orders of DigitalOutput and SchedulingLEDs are taken from
 the Driver's own flag lists, so for those two commands the decoder only
 restates the encoder.
 */
module Wire {
  import opened Bytes
  import opened Errors
  import opened Notes

  /** The meaning of one frame. Bitfield commands list their flags in bit
      order, bit 0 first. */
  datatype Command =
    | Start
    | Baud(baudCode: byte)
    | Safe
    | Full
    | Power
    | Spot
    | Clean
    | Max
    | Drive(velocity: int16, radius: int16)
    | Motors(sideBrush: bool, vacuum: bool, mainBrush: bool, sideBrushClockwise: bool, mainBrushDirection: bool)
    | Leds(debris: bool, spotLed: bool, dockLed: bool, checkRobot: bool, color: byte, intensity: byte)
    | Song(slot: byte, notes: seq<Note>)
    | Play(slot: byte)
    | Sensors(packetId: byte)
    | SeekDock
    | PwmMotors(mainBrushPwm: int8, sideBrushPwm: int8, vacuumPwm: byte)
    | DriveDirect(right: int16, left: int16)
    | DrivePwm(right: int16, left: int16)
    | DigitalOutput(output1: bool, output2: bool, output3: bool)
    | Stream(packetIds: seq<byte>)
    | QueryList(packetIds: seq<byte>)
    | StreamControl(resume: bool)
    | SendIr(irByte: byte)
    | SchedulingLeds(weekdayLeds: byte, colon: bool, pm: bool, am: bool, clockLed: bool, scheduleLed: bool)
    | DigitLedsRaw(segments: seq<byte>)
    | DigitLedsAscii(chars: seq<byte>)
    | Buttons(clean: bool, spot: bool, dock: bool, minute: bool, hour: bool, day: bool, schedule: bool, clock: bool)
    | Schedule(active: seq<bool>, times: seq<(byte, byte)>)
    | SetDateTime(weekday: byte, hourOfDay: byte, minuteOfHour: byte)

  /** The command a frame stands for, or None for a frame the protocol does
      not define (unknown opcode, wrong data length, a count byte that does
      not match the data, or a bitfield with an unused bit set). */
  function Decode(frame: seq<byte>): Option<Command>
  {
    if |frame| == 0 then None else DecodeData(frame[0], frame[1..])
  }

  /** The command opcode `op` with data bytes `d` stands for. */
  function DecodeData(op: byte, d: seq<byte>): Option<Command>
  {
    match op
    case 128 => if |d| == 0 then Some(Start) else None
    case 129 => if |d| == 1 then Some(Baud(d[0])) else None
    case 131 => if |d| == 0 then Some(Safe) else None
    case 132 => if |d| == 0 then Some(Full) else None
    case 133 => if |d| == 0 then Some(Power) else None
    case 134 => if |d| == 0 then Some(Spot) else None
    case 135 => if |d| == 0 then Some(Clean) else None
    case 136 => if |d| == 0 then Some(Max) else None
    case 137 =>
      if |d| == 4 then Some(Drive(Join16(d[0], d[1]), Join16(d[2], d[3]))) else None
    case 138 =>
      if |d| == 1 && d[0] < Pow2(5) then
        var f := UnpackBits(d[0], 5);
        Some(Motors(f[0], f[1], f[2], f[3], f[4]))
      else None
    case 139 =>
      if |d| == 3 && d[0] < Pow2(4) then
        var f := UnpackBits(d[0], 4);
        Some(Leds(f[0], f[1], f[2], f[3], d[1], d[2]))
      else None
    case 140 =>
      if |d| >= 2 && |d| == 2 + 2 * (d[1] as int) then
        var count := d[1];
        Some(Song(d[0], seq(count, (k: int) requires 0 <= k < count => Note(d[2 + 2 * k], d[3 + 2 * k]))))
      else None
    case 141 => if |d| == 1 then Some(Play(d[0])) else None
    case 142 => if |d| == 1 then Some(Sensors(d[0])) else None
    case 143 => if |d| == 0 then Some(SeekDock) else None
    case 144 =>
      if |d| == 3 then Some(PwmMotors(Int8Of(d[0]), Int8Of(d[1]), d[2])) else None
    case 145 =>
      if |d| == 4 then Some(DriveDirect(Join16(d[0], d[1]), Join16(d[2], d[3]))) else None
    case 146 =>
      if |d| == 4 then Some(DrivePwm(Join16(d[0], d[1]), Join16(d[2], d[3]))) else None
    case 147 =>
      if |d| == 1 && d[0] < Pow2(3) then
        var f := UnpackBits(d[0], 3);
        Some(DigitalOutput(f[0], f[1], f[2]))
      else None
    case 148 => if |d| >= 1 && |d| == 1 + (d[0] as int) then Some(Stream(d[1..])) else None
    case 149 => if |d| >= 1 && |d| == 1 + (d[0] as int) then Some(QueryList(d[1..])) else None
    case 150 => if |d| == 1 && d[0] < 2 then Some(StreamControl(d[0] == 1)) else None
    case 151 => if |d| == 1 then Some(SendIr(d[0])) else None
    case 162 =>
      if |d| == 2 && d[1] < Pow2(5) then
        var f := UnpackBits(d[1], 5);
        Some(SchedulingLeds(d[0], f[0], f[1], f[2], f[3], f[4]))
      else None
    case 163 => if |d| == 4 then Some(DigitLedsRaw(d)) else None
    case 164 => if |d| == 4 then Some(DigitLedsAscii(d)) else None
    case 165 =>
      if |d| == 1 then
        var f := UnpackBits(d[0], 8);
        Some(Buttons(f[0], f[1], f[2], f[3], f[4], f[5], f[6], f[7]))
      else None
    case 167 =>
      if |d| == 15 && d[0] < Pow2(7) then
        Some(Schedule(UnpackBits(d[0], 7), seq(7, (i: int) requires 0 <= i < 7 => (d[1 + 2 * i], d[2 + 2 * i]))))
      else None
    case 168 => if |d| == 3 then Some(SetDateTime(d[0], d[1], d[2])) else None
    case _ => None
  }
}
