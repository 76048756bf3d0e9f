/** The simulated drive as a value: `FakeDriveState` of simulator.py without its lock.
    Every function maps the state before one locked section to the state after it.
    Time is in integer microseconds. */
module DriveSpec {
  import opened Prelude
  import opened Codec
  import opened Bits
  import Controlword
  import Statusword

  datatype State =
    | SwitchOnDisabled
    | ReadyToSwitchOn
    | SwitchedOn
    | OperationEnabled
    | Faulted
    | QuickStopActive
  {
    /** The value of the enumeration member, which the source compares with `>=`. */
    function Rank(): nat {
      match this
      case SwitchOnDisabled => 0
      case ReadyToSwitchOn => 1
      case SwitchedOn => 2
      case OperationEnabled => 3
      case Faulted => 4
      case QuickStopActive => 5
    }
  }

  /** What the engine moves: objects 0x6064 and 0x606C and the two motion indications. */
  datatype Axis = Axis(position: int, velocity: int, isMoving: bool, targetReached: bool)

  /** The three competing motion flags and the acknowledge of the last set-point. */
  datatype Flags = Flags(pv: bool, pp: bool, homing: bool, ack: bool)

  datatype Registers = Registers(
    targetPosition: int,
    profileVelocity: int,
    acceleration: int,
    deceleration: int,
    targetVelocity: int,
    homingMethod: int,
    positionWindow: int
  )

  datatype Limits = Limits(low: int, high: int)

  datatype Home = Home(homed: bool, error: bool, diagCode: int, startedAt: int, duration: int)

  datatype Drive = Drive(
    state: State,
    fault: bool,
    warning: bool,
    emergency: bool,
    lastControlword: int,
    mode: int,
    display: int,
    axis: Axis,
    flags: Flags,
    goal: int,
    regs: Registers,
    limits: Limits,
    home: Home,
    lastTick: int,
    od: map<(int, int), seq<Byte>>
  )

  const MODE_PROFILE_POSITION: int := 1
  const MODE_PROFILE_VELOCITY: int := 3
  const MODE_HOMING: int := 6

  const CONTROLWORD: int := 0x6040
  const STATUSWORD: int := 0x6041
  const MODES_OF_OPERATION: int := 0x6060
  const MODES_OF_OPERATION_DISPLAY: int := 0x6061
  const POSITION_ACTUAL: int := 0x6064
  const POSITION_WINDOW: int := 0x6067
  const VELOCITY_ACTUAL: int := 0x606C
  const TARGET_POSITION: int := 0x607A
  const POSITION_RANGE_LIMIT: int := 0x607B
  const PROFILE_VELOCITY: int := 0x6081
  const PROFILE_ACCELERATION: int := 0x6083
  const PROFILE_DECELERATION: int := 0x6084
  const HOMING_METHOD: int := 0x6098
  const TARGET_VELOCITY: int := 0x60FF
  const HOMING_STATUS: int := 0x2014

  const MICROSECONDS: int := 1_000_000
  const MAX_TICK: int := 100_000

  function Initial(now: int): Drive {
    Drive(
      state := SwitchOnDisabled, fault := false, warning := false, emergency := false,
      lastControlword := 0, mode := 0, display := 0,
      axis := Axis(0, 0, false, true),
      flags := Flags(false, false, false, false),
      goal := 0,
      regs := Registers(targetPosition := 0, profileVelocity := 5000, acceleration := 2500,
                        deceleration := 2500, targetVelocity := 0, homingMethod := 0, positionWindow := 50),
      limits := Limits(0, 120000),
      home := Home(homed := false, error := false, diagCode := 1, startedAt := 0, duration := 800_000),
      lastTick := now, od := map[])
  }

  // ------------------------------------------------------------ motion

  /** The lower limit first, the upper limit last: inverted limits yield the upper one. */
  function Clamp(limits: Limits, x: int): int {
    Min(limits.high, Max(limits.low, x))
  }

  function ClampAxis(limits: Limits, axis: Axis): Axis {
    axis.(position := Clamp(limits, axis.position))
  }

  /** An axis at rest where it stands. */
  function Still(axis: Axis): Axis {
    axis.(velocity := 0, isMoving := false)
  }

  /** An axis at rest that also reports "target reached". */
  function Settled(axis: Axis): Axis {
    Axis(axis.position, 0, false, true)
  }

  function StopAllMotion(d: Drive): Drive {
    d.(axis := Still(d.axis), flags := Flags(false, false, false, false), regs := d.regs.(targetVelocity := 0))
  }

  /** 1 to 20000 units per second; a zero profile velocity stands for 5000. */
  function CruiseSpeed(profileVelocity: int): (v: int)
    ensures 1 <= v <= 20000
  {
    Max(1, Min(Abs(if profileVelocity == 0 then 5000 else profileVelocity), 20000))
  }

  /** Distance covered at `speed` units per second in `dt` microseconds. */
  function Travel(speed: int, dt: int): int {
    TruncDiv(speed * dt, MICROSECONDS)
  }

  /** The speed is the amount of object 0x6081, up to 20000 units per second. */
  lemma SpeedOfObject(profileVelocity: int)
    ensures 1 <= Abs(profileVelocity) <= 20000 ==> CruiseSpeed(profileVelocity) == Abs(profileVelocity)
    ensures Abs(profileVelocity) > 20000 ==> CruiseSpeed(profileVelocity) == 20000
    ensures profileVelocity == 0 ==> CruiseSpeed(profileVelocity) == 5000
  {
  }

  /** Travel is the product of speed and time in whole units, rounded toward zero. */
  lemma TravelTruncates(speed: int, dt: nat)
    ensures var distance := Travel(speed, dt);
            && (speed >= 0 ==> distance >= 0 && 0 <= speed * dt - distance * 1_000_000 < 1_000_000)
            && (speed <= 0 ==> distance <= 0 && 0 <= distance * 1_000_000 - speed * dt < 1_000_000)
  {
    if speed >= 0 {
      assert speed * dt >= 0;
    } else {
      assert -speed * dt == -(speed * dt) >= 0;
    }
  }

  function StartProfileVelocity(d: Drive): Drive {
    if d.regs.targetVelocity == 0 then
      d.(flags := d.flags.(pv := false), axis := Settled(d.axis))
    else
      d.(flags := Flags(true, false, false, d.flags.ack), axis := d.axis.(targetReached := false))
  }

  function StartProfilePosition(d: Drive, relative: bool): Drive {
    var end := if relative then d.axis.position + d.regs.targetPosition else d.regs.targetPosition;
    d.(flags := Flags(false, true, false, true),
       goal := Max(d.limits.low, Min(d.limits.high, end)),
       axis := d.axis.(isMoving := true, targetReached := false))
  }

  function HomingTime(position: int, speed: int): int
    requires speed > 0
  {
    Max(300_000, Min(Abs(position) * MICROSECONDS / speed, 1_500_000))
  }

  lemma MoreTakesLonger(speed: nat, x: int, y: int)
    requires x <= y
    ensures speed * x <= speed * y
  {
  }

  /** Homing takes the time of the way at this speed, but at least 0.3 s and at most 1.5 s. */
  lemma HomingTimeOfWay(position: int, speed: int)
    requires speed > 0
    ensures var t, way := HomingTime(position, speed), Abs(position) * 1_000_000;
            && 300_000 <= t <= 1_500_000
            && (t < 1_500_000 ==> way < speed * (t + 1)) && (t > 300_000 ==> speed * t <= way)
  {
    var way := Abs(position) * 1_000_000;
    var q, t := way / speed, HomingTime(position, speed);
    assert speed * q <= way < speed * (q + 1);
    if t < 1_500_000 { MoreTakesLonger(speed, q + 1, t + 1); }
    if t > 300_000 { MoreTakesLonger(speed, t, q); }
  }

  function StartHoming(d: Drive, now: int): Drive {
    d.(flags := Flags(false, false, true, d.flags.ack),
       home := Home(homed := false, error := false, diagCode := 0x23, startedAt := now,
                    duration := HomingTime(d.axis.position, CruiseSpeed(d.regs.profileVelocity))),
       axis := d.axis.(isMoving := true, targetReached := false))
  }

  // ------------------------------------------------------------ controlword

  /** What a controlword asks for; the same word usually asks for several things. */
  datatype Command = Command(
    shutdown: bool,
    switchOn: bool,
    enableOperation: bool,
    faultReset: bool,
    halt: bool,
    newSetPoint: bool,
    quickStop: bool,
    relative: bool
  )

  function Decode(cw: int): Command {
    Command(
      shutdown := cw % 16 in {0x6, 0xE} || (cw / 2) % 4 == 3,
      switchOn := cw % 16 in {0x7, 0xF} || cw % 8 == 7,
      enableOperation := cw % 16 == 0xF,
      faultReset := HasBit(cw, Controlword.FAULT_RESET_BIT),
      halt := HasBit(cw, Controlword.HALT),
      newSetPoint := HasBit(cw, Controlword.NEW_SET_POINT),
      quickStop := cw % 8 == 3 || cw % 16 == 2,
      relative := HasBit(cw, Controlword.ABS_REL))
  }

  lemma DropMultiple(k: int, low: int)
    ensures (2 * k + low) % 2 == low % 2
  {
  }

  lemma Remainders(x: int, q: int, r: int)
    ensures x == 4 * q + r && 0 <= r < 4 ==> x % 4 == r
    ensures x == 8 * q + r && 0 <= r < 8 ==> x % 8 == r
  {
  }

  lemma Halves(cw: int)
    ensures cw / 2 == 8 * (cw / 16) + cw % 16 / 2 && cw / 4 == 4 * (cw / 16) + cw % 16 / 4
    ensures cw / 8 == 2 * (cw / 16) + cw % 16 / 8 && cw == 16 * (cw / 16) + cw % 16
  {
  }

  lemma LowerBits(cw: int)
    ensures HasBit(cw, 0x01) == HasBit(cw % 16, 0x01) && HasBit(cw, 0x02) == HasBit(cw % 16, 0x02)
  {
    Halves(cw);
    DropMultiple(8 * (cw / 16), cw % 16);
    DropMultiple(4 * (cw / 16), cw % 16 / 2);
  }

  lemma HigherBits(cw: int)
    ensures HasBit(cw, 0x04) == HasBit(cw % 16, 0x04) && HasBit(cw, 0x08) == HasBit(cw % 16, 0x08)
  {
    Halves(cw);
    DropMultiple(2 * (cw / 16), cw % 16 / 4);
    DropMultiple(cw / 16, cw % 16 / 8);
  }

  lemma LowerDigits(cw: int)
    ensures (cw / 2) % 4 == cw % 16 / 2 % 4 && cw % 8 == cw % 16 % 8
  {
    var high, low := cw / 16, cw % 16;
    Halves(cw);
    Remainders(cw / 2, 2 * high + low / 8, low / 2 % 4);
    Remainders(cw, 2 * high + low / 8, low % 8);
  }

  /** The lowest four bits of a word depend on its lowest digit only. */
  lemma LowestBits(cw: int)
    ensures HasBit(cw, 0x01) == HasBit(cw % 16, 0x01) && HasBit(cw, 0x02) == HasBit(cw % 16, 0x02)
    ensures HasBit(cw, 0x04) == HasBit(cw % 16, 0x04) && HasBit(cw, 0x08) == HasBit(cw % 16, 0x08)
    ensures (cw / 2) % 4 == cw % 16 / 2 % 4 && cw % 8 == cw % 16 % 8
  {
    hide HasBit;
    LowerBits(cw);
    HigherBits(cw);
    LowerDigits(cw);
  }

  lemma DigitCommands(low: int)
    requires 0 <= low < 16
    ensures low in {0x6, 0xE} || low / 2 % 4 == 3 <==> HasBit(low, 0x02) && HasBit(low, 0x04)
    ensures low in {0x7, 0xF} || low % 8 == 7 <==> HasBit(low, 0x01) && HasBit(low, 0x02) && HasBit(low, 0x04)
    ensures low == 0xF <==> HasBit(low, 0x01) && HasBit(low, 0x02) && HasBit(low, 0x04) && HasBit(low, 0x08)
    ensures low % 8 == 3 || low == 2 <==>
              HasBit(low, 0x02) && !HasBit(low, 0x04) && (HasBit(low, 0x01) || !HasBit(low, 0x08))
  {
  }

  /** Each command by the bits of the word. */
  lemma CommandsByBits(cw: int)
    ensures var c := Decode(cw);
            && (c.shutdown <==> HasBit(cw, 0x02) && HasBit(cw, 0x04))
            && (c.switchOn <==> HasBit(cw, 0x01) && HasBit(cw, 0x02) && HasBit(cw, 0x04))
            && (c.enableOperation <==> HasBit(cw, 0x01) && HasBit(cw, 0x02) && HasBit(cw, 0x04) && HasBit(cw, 0x08))
            && (c.quickStop <==> && HasBit(cw, 0x02) && !HasBit(cw, 0x04)
                                 && (HasBit(cw, 0x01) || !HasBit(cw, 0x08)))
            && c.newSetPoint == HasBit(cw, 0x10) && c.relative == HasBit(cw, 0x40)
            && c.faultReset == HasBit(cw, 0x80) && c.halt == HasBit(cw, 0x100)
  {
    LowestBits(cw);
    DigitCommands(cw % 16);
  }

  predicate HoldsSetPoint(d: Drive) {
    HasBit(d.lastControlword, Controlword.NEW_SET_POINT)
  }

  predicate RisingEdge(d: Drive, cw: int) {
    HasBit(cw, Controlword.NEW_SET_POINT) && !HoldsSetPoint(d)
  }

  function Shutdown(s: State, c: Command): State {
    if c.shutdown then ReadyToSwitchOn else s
  }

  function SwitchOn(s: State, c: Command): State {
    if c.switchOn && s.Rank() >= ReadyToSwitchOn.Rank() then SwitchedOn else s
  }

  function EnableOperation(s: State, c: Command): State {
    if c.enableOperation && s.Rank() >= SwitchedOn.Rank() then OperationEnabled else s
  }

  /** The three state commands run in sequence: one word can climb several states. */
  function Climb(s: State, c: Command): State {
    EnableOperation(SwitchOn(Shutdown(s, c), c), c)
  }

  /** Where a word takes the state by its bits, from whatever state: a single one can enable. */
  lemma ClimbByBits(s: State, cw: int)
    ensures Climb(s, Decode(cw))
            == if !HasBit(cw, 0x02) || !HasBit(cw, 0x04) then s
               else if !HasBit(cw, 0x01) then ReadyToSwitchOn
               else if !HasBit(cw, 0x08) then SwitchedOn
               else OperationEnabled
  {
    CommandsByBits(cw);
  }

  /** Releasing bit 4 releases the set-point acknowledge. */
  function LatchControlword(d: Drive, cw: int): Drive {
    d.(lastControlword := cw,
       flags := d.flags.(ack := d.flags.ack && (HasBit(cw, Controlword.NEW_SET_POINT) || !HoldsSetPoint(d))))
  }

  function StartMotion(d: Drive, relative: bool, now: int): Drive {
    if d.mode == MODE_HOMING then StartHoming(d, now)
    else if d.mode == MODE_PROFILE_POSITION then StartProfilePosition(d, relative)
    else if d.mode == MODE_PROFILE_VELOCITY then StartProfileVelocity(d)
    else d
  }

  function StopAndSettle(d: Drive): Drive {
    var stopped := StopAllMotion(d);
    stopped.(axis := Settled(stopped.axis))
  }

  function ResetFault(d: Drive): Drive {
    StopAndSettle(d).(fault := false, home := d.home.(error := false, diagCode := 1), state := SwitchOnDisabled)
  }

  /** What a latched controlword does; `rising` tells whether it raised bit 4. */
  function Obey(d: Drive, c: Command, rising: bool, now: int): Drive {
    if c.faultReset then ResetFault(d)
    else if d.emergency then StopAllMotion(d)
    else if c.halt then StopAndSettle(d)
    else if c.quickStop && d.state in {OperationEnabled, QuickStopActive} then
      StopAndSettle(d).(state := ReadyToSwitchOn)
    else if d.fault then d.(state := Faulted)
    else
      var moved := d.(state := Climb(d.state, c));
      if rising && moved.state == OperationEnabled && d.display == d.mode
      then StartMotion(moved, c.relative, now) else moved
  }

  function ApplyControlword(d: Drive, cw: int, now: int): Drive {
    Obey(LatchControlword(d, cw), Decode(cw), RisingEdge(d, cw), now)
  }

  // ------------------------------------------------------------ engine

  function TickLength(last: int, now: int): (dt: int)
    ensures 0 <= dt <= MAX_TICK
  {
    Max(0, Min(now - last, MAX_TICK))
  }

  /** The time since the last tick, brought between nothing and a tenth of a second. */
  lemma TickLengthOfTime(last: int, now: int)
    ensures var dt := TickLength(last, now);
            && (now <= last ==> dt == 0) && (last <= now <= last + 100_000 ==> dt == now - last)
            && (now >= last + 100_000 ==> dt == 100_000)
  {
  }

  /** Emergency and every state but OPERATION_ENABLED end all motion; the acknowledge stays. */
  function Forced(d: Drive): Drive {
    d.(flags := Flags(false, false, false, d.flags.ack),
       regs := d.regs.(targetVelocity := 0),
       axis := Settled(d.axis))
  }

  /** One stretch of the ramp to zero, of signed length `distance`. */
  function RampHome(axis: Axis, direction: int, speed: int, distance: int): Axis {
    var next := axis.position + distance;
    var landed := if (direction < 0 && next < 0) || (direction > 0 && next > 0) then 0 else next;
    Axis(landed, direction * speed, direction != 0, false)
  }

  function HomingTick(d: Drive, dt: int, now: int): Drive {
    if now - d.home.startedAt >= d.home.duration then
      d.(axis := ClampAxis(d.limits, Axis(0, 0, false, true)),
         home := d.home.(homed := true, error := false, diagCode := 1),
         flags := d.flags.(homing := false))
    else
      var v := CruiseSpeed(d.regs.profileVelocity);
      var direction := if d.axis.position > 0 then -1 else if d.axis.position < 0 then 1 else 0;
      d.(axis := ClampAxis(d.limits, RampHome(d.axis, direction, v, Travel(direction * v, dt))))
  }

  /** One stretch toward `goal`: `distance` units, at least one, and never beyond the goal. */
  function Approach(position: int, goal: int, distance: nat): int {
    if goal > position then Min(position + Max(1, distance), goal)
    else Max(position - Max(1, distance), goal)
  }

  function PositionTick(d: Drive, dt: nat): Drive {
    if d.axis.position == d.goal then
      d.(axis := Settled(d.axis), flags := d.flags.(pp := false))
    else
      var v := CruiseSpeed(d.regs.profileVelocity);
      var landed := Approach(d.axis.position, d.goal, v * dt / MICROSECONDS);
      var reached := landed == d.goal;
      var speed := if reached then 0 else if d.goal > d.axis.position then v else -v;
      d.(axis := ClampAxis(d.limits, Axis(landed, speed, !reached, reached)),
         flags := d.flags.(pp := d.flags.pp && !reached))
  }

  function VelocityTick(d: Drive, dt: int): Drive {
    var tv := d.regs.targetVelocity;
    if tv == 0 then
      d.(axis := Settled(d.axis))
    else
      d.(axis := ClampAxis(d.limits, Axis(d.axis.position + Travel(tv, dt), tv, true, false)))
  }

  function EngineStep(d: Drive, dt: nat, now: int): Drive {
    if d.emergency || d.state != OperationEnabled then Forced(d)
    else if d.flags.homing && d.mode == MODE_HOMING then HomingTick(d, dt, now)
    else if d.flags.pp && d.mode == MODE_PROFILE_POSITION then PositionTick(d, dt)
    else if d.flags.pv && d.mode == MODE_PROFILE_VELOCITY then VelocityTick(d, dt)
    else d.(axis := Settled(d.axis))
  }

  /** One turn of the engine loop at clock reading `now`. */
  function Tick(d: Drive, now: int): Drive {
    EngineStep(d.(lastTick := now), TickLength(d.lastTick, now), now)
  }

  // ------------------------------------------------------------ statusword

  function Mark(on: bool, mask: nat): nat {
    if on then mask else 0
  }

  function StateBits(s: State): nat {
    match s
    case SwitchOnDisabled => Statusword.SWITCH_ON_DISABLED
    case ReadyToSwitchOn => 0x31
    case SwitchedOn => 0x33
    case OperationEnabled => 0x37
    case Faulted => Statusword.SWITCH_ON_DISABLED
    case QuickStopActive => 0x13
  }

  predicate Reports10(axis: Axis) {
    axis.targetReached && !axis.isMoving
  }

  predicate Reports12(d: Drive) {
    (d.mode == MODE_HOMING && d.home.homed) || (d.mode == MODE_PROFILE_POSITION && d.flags.ack)
  }

  predicate Reports13(d: Drive) {
    d.mode == MODE_HOMING && d.home.error
  }

  function MakeStatusword(d: Drive): int {
    StateBits(d.state)
    + Mark(d.fault || d.state == Faulted, Statusword.FAULT)
    + Mark(d.warning, Statusword.WARNING)
    + Statusword.REMOTE
    + Mark(Reports10(d.axis), Statusword.TARGET_REACHED)
    + Mark(Reports12(d), Statusword.OP_MODE_SPECIFIC)
    + Mark(Reports13(d), Statusword.BIT_13)
  }

  // ------------------------------------------------------------ objects

  /** Cut off, or padded with zeros, at the end. */
  function FitTo(raw: seq<Byte>, length: nat): (fitted: seq<Byte>)
    ensures |fitted| == length
    ensures forall k :: 0 <= k < length ==> fitted[k] == if k < |raw| then raw[k] else 0
  {
    if |raw| >= length then raw[..length] else raw + Zeros(length - |raw|)
  }

  /** The bytes `struct.unpack` reads: the first `size`, padded with zeros on the right. */
  function SignedOf(raw: seq<Byte>, size: nat): int
    requires SupportedSize(size)
  {
    UnpackInt(FitTo(raw, size), true, Little).value
  }

  function UnsignedOf(raw: seq<Byte>, size: nat): int
    requires SupportedSize(size)
  {
    UnpackInt(FitTo(raw, size), false, Little).value
  }

  /** `sdo_read`: `Err` where `struct.pack` refuses the stored value. */
  function ReadObject(d: Drive, index: int, subindex: int, length: nat): Result<seq<Byte>, CodecError> {
    if index == STATUSWORD then PackInt(MakeStatusword(d), 2, false, Little)
    else if index == HOMING_STATUS then PackInt(d.home.diagCode % 0x1_0000, 2, false, Little)
    else if index == POSITION_ACTUAL then PackInt(d.axis.position, 4, true, Little)
    else if index == VELOCITY_ACTUAL then PackInt(d.axis.velocity, 4, true, Little)
    else if index == MODES_OF_OPERATION then PackInt(d.mode % 256, 1, true, Little)
    else if index == MODES_OF_OPERATION_DISPLAY then PackInt(d.display % 256, 1, true, Little)
    else if index == TARGET_POSITION then PackInt(d.regs.targetPosition, 4, true, Little)
    else if index == PROFILE_VELOCITY then PackInt(d.regs.profileVelocity, 4, true, Little)
    else if index == PROFILE_ACCELERATION then PackInt(d.regs.acceleration, 4, true, Little)
    else if index == PROFILE_DECELERATION then PackInt(d.regs.deceleration, 4, true, Little)
    else if index == TARGET_VELOCITY then PackInt(d.regs.targetVelocity, 4, true, Little)
    else if index == HOMING_METHOD then PackInt(d.regs.homingMethod % 256, 1, false, Little)
    else if index == POSITION_WINDOW then PackInt(d.regs.positionWindow, 4, true, Little)
    else if index == POSITION_RANGE_LIMIT then
      PackInt(if subindex == 1 then d.limits.low else if subindex == 2 then d.limits.high else 2, 4, true, Little)
    else
      Ok(FitTo(if (index, subindex) in d.od then d.od[(index, subindex)] else Zeros(length), length))
  }

  function SetLimits(d: Drive, limits: Limits): Drive {
    d.(limits := limits, axis := ClampAxis(limits, d.axis))
  }

  /** The plain registers: `signed` and `byte` are the two readings of the bytes written. */
  function StoreRegister(r: Registers, index: int, signed: int, byte: int): Registers {
    if index == TARGET_POSITION then r.(targetPosition := signed)
    else if index == PROFILE_VELOCITY then r.(profileVelocity := signed)
    else if index == PROFILE_ACCELERATION then r.(acceleration := signed)
    else if index == PROFILE_DECELERATION then r.(deceleration := signed)
    else if index == TARGET_VELOCITY then r.(targetVelocity := signed)
    else if index == HOMING_METHOD then r.(homingMethod := byte)
    else r
  }

  function StoreLimit(limits: Limits, subindex: int, value: int): Limits {
    if subindex == 1 then limits.(low := value)
    else if subindex == 2 then limits.(high := value)
    else limits
  }

  /** Writing a limit clamps the position at once; the constant sub-index 0 and the
      sub-indices beyond the array ignore the write. */
  function WriteLimit(d: Drive, subindex: int, value: int): Drive {
    if subindex in {1, 2} then SetLimits(d, StoreLimit(d.limits, subindex, value)) else d
  }

  function Keep(d: Drive, index: int, subindex: int, raw: seq<Byte>): Drive {
    d.(od := d.od[(index, subindex) := raw])
  }

  /** The two one-byte objects do not pad: unpacking no bytes raises. */
  predicate WriteRaises(index: int, raw: seq<Byte>) {
    raw == [] && index in {MODES_OF_OPERATION, HOMING_METHOD}
  }

  /** `sdo_write`: the raw bytes are always kept, even when what follows raises, and some objects
      also act on them. */
  function WriteObject(d: Drive, index: int, subindex: int, raw: seq<Byte>, now: int): Drive {
    var kept := Keep(d, index, subindex, raw);
    if WriteRaises(index, raw) then kept
    else if index == MODES_OF_OPERATION then kept.(mode := SignedOf(raw, 1), display := SignedOf(raw, 1))
    else if index == POSITION_RANGE_LIMIT then WriteLimit(kept, subindex, SignedOf(raw, 4))
    else if index == CONTROLWORD then ApplyControlword(kept, UnsignedOf(raw, 2), now)
    else kept.(regs := StoreRegister(kept.regs, index, SignedOf(raw, 4), UnsignedOf(raw, 1)))
  }

  function ToggleEmergency(d: Drive): Drive {
    var toggled := d.(emergency := !d.emergency);
    if toggled.emergency then StopAllMotion(toggled) else toggled
  }

  // ------------------------------------------------------------ runs

  /** Everything that can happen to the drive. `FaultInjected` is the environment raising the
      fault flag, which no code of the simulator does on its own. */
  datatype Step =
    | Engine(now: int)
    | Object(index: int, subindex: int, raw: seq<Byte>, at: int)
    | EmergencyButton
    | FaultInjected

  function Apply(d: Drive, step: Step): Drive {
    match step
    case Engine(now) => Tick(d, now)
    case Object(index, subindex, raw, at) => WriteObject(d, index, subindex, raw, at)
    case EmergencyButton => ToggleEmergency(d)
    case FaultInjected => d.(fault := true)
  }

  function Run(d: Drive, steps: seq<Step>): Drive
    decreases |steps|
  {
    if steps == [] then d else Run(Apply(d, steps[0]), steps[1..])
  }

  lemma {:induction false} RunSplit(d: Drive, first: seq<Step>, rest: seq<Step>)
    ensures Run(d, first + rest) == Run(Run(d, first), rest)
    decreases |first|
  {
    if first == [] {
      assert first + rest == rest;
    } else {
      assert (first + rest)[1..] == first[1..] + rest;
      RunSplit(Apply(d, first[0]), first[1..], rest);
    }
  }
}
