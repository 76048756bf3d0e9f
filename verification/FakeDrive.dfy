/** The simulated drive as the object it is: `FakeDriveState` of simulator.py. Each method is
    one section under the lock; `View` is its state as a value, and every contract says which
    function of module DriveSpec the method computes on it. Attributes that are always written
    together are kept in one record field. */
module FakeDrive {
  import opened Prelude
  import opened Codec
  import opened Bits
  import opened DriveSpec
  import Controlword
  import Statusword

  class FakeDriveState {
    var state: State
    var fault: bool
    var warning: bool
    var emergency: bool
    var lastControlword: int
    var mode: int
    var display: int
    var axis: Axis
    var flags: Flags
    var goal: int
    var regs: Registers
    var limits: Limits
    var home: Home
    var lastTick: int
    var od: map<(int, int), seq<Byte>>

    ghost function View(): Drive
      reads this
    {
      Drive(state, fault, warning, emergency, lastControlword, mode, display,
            axis, flags, goal, regs, limits, home, lastTick, od)
    }

    constructor (now: int)
      ensures View() == Initial(now)
    {
      state, fault, warning, emergency := SwitchOnDisabled, false, false, false;
      lastControlword, mode, display := 0, 0, 0;
      axis := Axis(position := 0, velocity := 0, isMoving := false, targetReached := true);
      flags := Flags(pv := false, pp := false, homing := false, ack := false);
      goal := 0;
      regs := Registers(0, 5000, 2500, 2500, 0, 0, 50);
      limits := Limits(0, 120000);
      home := Home(homed := false, error := false, diagCode := 1, startedAt := 0, duration := 800_000);
      lastTick, od := now, map[];
    }

    // ------------------------------------------------------------ motion

    method StopMotion()
      modifies this`flags, this`regs, this`axis
      ensures View() == StopAllMotion(old(View()))
    {
      flags := Flags(false, false, false, false);
      regs := regs.(targetVelocity := 0);
      axis := axis.(velocity := 0, isMoving := false);
    }

    method ClampToSoftLimits()
      modifies this`axis
      ensures axis == ClampAxis(limits, old(axis))
    {
      if axis.position < limits.low {
        axis := axis.(position := limits.low);
      }
      if axis.position > limits.high {
        axis := axis.(position := limits.high);
      }
    }

    method StartVelocity()
      modifies this`flags, this`axis
      ensures View() == StartProfileVelocity(old(View()))
    {
      if regs.targetVelocity == 0 {
        flags := flags.(pv := false);
        axis := axis.(velocity := 0, isMoving := false, targetReached := true);
        return;
      }
      flags := flags.(pp := false, homing := false, pv := true);
      axis := axis.(targetReached := false);
    }

    method StartPosition(relative: bool)
      modifies this`flags, this`axis, this`goal
      ensures View() == StartProfilePosition(old(View()), relative)
    {
      var end := if relative then axis.position + regs.targetPosition else regs.targetPosition;
      end := Max(limits.low, Min(limits.high, end));
      flags := flags.(pv := false, homing := false, pp := true);
      goal := end;
      axis := axis.(isMoving := true, targetReached := false);
      flags := flags.(ack := true);
    }

    method StartHome(now: int)
      modifies this`flags, this`axis, this`home
      ensures View() == StartHoming(old(View()), now)
    {
      flags := flags.(pv := false, pp := false, homing := true);
      axis := axis.(isMoving := true, targetReached := false);
      var duration := HomingTime(axis.position, CruiseSpeed(regs.profileVelocity));
      home := Home(homed := false, error := false, diagCode := 0x23, startedAt := now, duration := duration);
    }

    // ------------------------------------------------------------ controlword

    method LatchWord(cw: int)
      modifies this`lastControlword, this`flags
      ensures View() == LatchControlword(old(View()), cw)
    {
      if HasBit(lastControlword, Controlword.NEW_SET_POINT) && !HasBit(cw, Controlword.NEW_SET_POINT) {
        flags := flags.(ack := false);
      }
      lastControlword := cw;
    }

    /** One controlword: the early returns of the source in the source's order. */
    method ObeyControlword(cw: int, now: int)
      modifies this
      ensures View() == ApplyControlword(old(View()), cw, now)
    {
      var c := Decode(cw);
      var rising := c.newSetPoint && !HasBit(lastControlword, Controlword.NEW_SET_POINT);
      LatchWord(cw);
      ObeyCommand(c, rising, now);
    }

    method ObeyCommand(c: Command, rising: bool, now: int)
      modifies this
      ensures View() == Obey(old(View()), c, rising, now)
    {
      if c.faultReset {
        fault := false;
        home := home.(error := false, diagCode := 1);
        state := SwitchOnDisabled;
        StopMotion();
        axis := axis.(targetReached := true);
        return;
      }
      if emergency {
        StopMotion();
        return;
      }
      if c.halt {
        StopMotion();
        axis := axis.(targetReached := true);
        return;
      }
      if c.quickStop && (state == OperationEnabled || state == QuickStopActive) {
        StopMotion();
        axis := axis.(targetReached := true);
        state := ReadyToSwitchOn;
        return;
      }
      if fault {
        state := Faulted;
        return;
      }
      if c.shutdown {
        state := ReadyToSwitchOn;
      }
      if c.switchOn && state.Rank() >= ReadyToSwitchOn.Rank() {
        state := SwitchedOn;
      }
      if c.enableOperation && state.Rank() >= SwitchedOn.Rank() {
        state := OperationEnabled;
      }
      assert View() == old(View()).(state := Climb(old(state), c));
      if rising && state == OperationEnabled && display == mode {
        Start(c.relative, now);
      }
    }

    method Start(relative: bool, now: int)
      modifies this`flags, this`axis, this`goal, this`home
      ensures View() == StartMotion(old(View()), relative, now)
    {
      if mode == MODE_HOMING {
        StartHome(now);
      } else if mode == MODE_PROFILE_POSITION {
        StartPosition(relative);
      } else if mode == MODE_PROFILE_VELOCITY {
        StartVelocity();
      }
    }

    // ------------------------------------------------------------ engine

    method HomeTurn(dt: nat, now: int)
      modifies this`axis, this`home, this`flags
      ensures View() == HomingTick(old(View()), dt, now)
    {
      if now - home.startedAt >= home.duration {
        axis := Axis(position := 0, velocity := 0, isMoving := false, targetReached := true);
        home := home.(homed := true, error := false, diagCode := 1);
        flags := flags.(homing := false);
      } else {
        var v := CruiseSpeed(regs.profileVelocity);
        var direction := if axis.position > 0 then -1 else if axis.position < 0 then 1 else 0;
        var step := Travel(direction * v, dt);
        axis := HomeStretch(axis, direction, v, step);
      }
      ClampToSoftLimits();
    }

    static method HomeStretch(before: Axis, direction: int, v: int, step: int) returns (after: Axis)
      ensures after == RampHome(before, direction, v, step)
    {
      var position := before.position;
      if direction < 0 && position + step < 0 {
        position := 0;
      } else if direction > 0 && position + step > 0 {
        position := 0;
      } else {
        position := position + step;
      }
      after := Axis(position, direction * v, direction != 0, false);
    }

    method PositionTurn(dt: nat)
      modifies this`axis, this`flags
      ensures View() == PositionTick(old(View()), dt)
    {
      if axis.position == goal {
        axis := axis.(velocity := 0, isMoving := false, targetReached := true);
        flags := flags.(pp := false);
        return;
      }
      var v := CruiseSpeed(regs.profileVelocity);
      var direction := if goal > axis.position then 1 else -1;
      var next := GoalStretch(axis.position, goal, direction, v, dt);
      axis := Axis(next, if next != goal then (if direction > 0 then v else -v) else 0, next != goal, next == goal);
      if axis.targetReached {
        axis := axis.(velocity := 0, isMoving := false);
        flags := flags.(pp := false);
      }
      ClampToSoftLimits();
    }

    static method GoalStretch(position: int, goal: int, direction: int, v: nat, dt: nat) returns (next: int)
      requires position != goal && direction == if goal > position then 1 else -1
      ensures next == Approach(position, goal, v * dt / MICROSECONDS)
    {
      SignedTravel(v, dt);
      var step := Travel(direction * v, dt);
      if step == 0 {
        step := direction;
      }
      next := position + step;
      if direction > 0 && next > goal {
        next := goal;
      }
      if direction < 0 && next < goal {
        next := goal;
      }
    }

    method VelocityTurn(dt: nat)
      modifies this`axis
      ensures View() == VelocityTick(old(View()), dt)
    {
      var tv := regs.targetVelocity;
      axis := axis.(velocity := tv, isMoving := tv != 0, targetReached := tv == 0);
      if tv != 0 {
        var travelled := Travel(tv, dt);
        axis := axis.(position := axis.position + travelled);
        ClampToSoftLimits();
      }
    }

    /** One turn of the engine loop at clock reading `now`. */
    method EngineTurn(now: int)
      modifies this`lastTick, this`axis, this`flags, this`regs, this`home
      ensures View() == Tick(old(View()), now)
    {
      var dt := now - lastTick;
      if dt < 0 {
        dt := 0;
      }
      if dt > MAX_TICK {
        dt := MAX_TICK;
      }
      lastTick := now;
      EngineBody(dt, now);
    }

    method EngineBody(dt: nat, now: int)
      modifies this`axis, this`flags, this`regs, this`home
      ensures View() == EngineStep(old(View()), dt, now)
    {
      if emergency || state != OperationEnabled {
        flags := flags.(pv := false, pp := false, homing := false);
        regs := regs.(targetVelocity := 0);
        axis := axis.(velocity := 0, isMoving := false, targetReached := true);
      } else if flags.homing && mode == MODE_HOMING {
        HomeTurn(dt, now);
      } else if flags.pp && mode == MODE_PROFILE_POSITION {
        PositionTurn(dt);
      } else if flags.pv && mode == MODE_PROFILE_VELOCITY {
        VelocityTurn(dt);
      } else {
        axis := axis.(velocity := 0, isMoving := false, targetReached := true);
      }
    }

    // ------------------------------------------------------------ objects

    method ReadStatusword() returns (sw: int)
      ensures sw == MakeStatusword(View())
    {
      sw := StateBits(state);
      if fault || state == Faulted {
        sw := sw + Statusword.FAULT;
      }
      if warning {
        sw := sw + Statusword.WARNING;
      }
      sw := sw + Statusword.REMOTE;
      if axis.targetReached && !axis.isMoving {
        sw := sw + Statusword.TARGET_REACHED;
      }
      if (mode == MODE_HOMING && home.homed) || (mode == MODE_PROFILE_POSITION && flags.ack) {
        sw := sw + Statusword.OP_MODE_SPECIFIC;
      }
      if mode == MODE_HOMING && home.error {
        sw := sw + Statusword.BIT_13;
      }
    }

    method SdoRead(index: int, subindex: int, length: nat) returns (r: Result<seq<Byte>, CodecError>)
      ensures r == ReadObject(View(), index, subindex, length)
    {
      match index {
        case 0x6041 =>
          var sw := ReadStatusword();
          r := PackInt(sw, 2, false, Little);
        case 0x2014 => r := PackInt(home.diagCode % 0x1_0000, 2, false, Little);
        case 0x6064 => r := PackInt(axis.position, 4, true, Little);
        case 0x606C => r := PackInt(axis.velocity, 4, true, Little);
        case 0x6060 => r := PackInt(mode % 256, 1, true, Little);
        case 0x6061 => r := PackInt(display % 256, 1, true, Little);
        case 0x607A => r := PackInt(regs.targetPosition, 4, true, Little);
        case 0x6081 => r := PackInt(regs.profileVelocity, 4, true, Little);
        case 0x6083 => r := PackInt(regs.acceleration, 4, true, Little);
        case 0x6084 => r := PackInt(regs.deceleration, 4, true, Little);
        case 0x60FF => r := PackInt(regs.targetVelocity, 4, true, Little);
        case 0x6098 => r := PackInt(regs.homingMethod % 256, 1, false, Little);
        case 0x6067 => r := PackInt(regs.positionWindow, 4, true, Little);
        case 0x607B =>
          var entry := if subindex == 1 then limits.low else if subindex == 2 then limits.high else 2;
          r := PackInt(entry, 4, true, Little);
        case _ =>
          var raw := if (index, subindex) in od then od[(index, subindex)] else Zeros(length);
          r := Ok(FitTo(raw, length));
      }
    }

    method SdoWrite(index: int, subindex: int, raw: seq<Byte>, now: int) returns (r: Result<(), CodecError>)
      modifies this
      ensures r == if WriteRaises(index, raw) then Err(UnsupportedSize) else Ok(())
      ensures View() == WriteObject(old(View()), index, subindex, raw, now)
    {
      od := od[(index, subindex) := raw];
      assert View() == Keep(old(View()), index, subindex, raw);
      if raw == [] && (index == MODES_OF_OPERATION || index == HOMING_METHOD) {
        return Err(UnsupportedSize);
      }
      if index == MODES_OF_OPERATION {
        mode := SignedOf(raw, 1);
        display := mode;
      } else if index == POSITION_RANGE_LIMIT {
        WriteLimitEntry(subindex, SignedOf(raw, 4));
      } else if index == CONTROLWORD {
        ObeyControlword(UnsignedOf(raw, 2), now);
      } else {
        WriteRegister(index, SignedOf(raw, 4), UnsignedOf(raw, 1));
      }
      return Ok(());
    }

    method WriteLimitEntry(subindex: int, value: int)
      modifies this`limits, this`axis
      ensures View() == WriteLimit(old(View()), subindex, value)
    {
      if subindex == 1 {
        limits := limits.(low := value);
        ClampToSoftLimits();
      } else if subindex == 2 {
        limits := limits.(high := value);
        ClampToSoftLimits();
      }
    }

    method WriteRegister(index: int, signed: int, byte: int)
      modifies this`regs
      ensures regs == StoreRegister(old(regs), index, signed, byte)
    {
      match index {
        case 0x607A => regs := regs.(targetPosition := signed);
        case 0x6081 => regs := regs.(profileVelocity := signed);
        case 0x6083 => regs := regs.(acceleration := signed);
        case 0x6084 => regs := regs.(deceleration := signed);
        case 0x60FF => regs := regs.(targetVelocity := signed);
        case 0x6098 => regs := regs.(homingMethod := byte);
        case _ =>
      }
    }

    method PressEmergency()
      modifies this
      ensures View() == ToggleEmergency(old(View()))
    {
      emergency := !emergency;
      if emergency {
        StopMotion();
      }
    }
  }

  /** The signed step of the engine is the unsigned one with the sign of the direction. */
  lemma SignedTravel(v: nat, dt: nat)
    ensures Travel(1 * v, dt) == v * dt / MICROSECONDS
    ensures Travel(-1 * v, dt) == -(v * dt / MICROSECONDS)
  {
    assert (-1 * v) * dt == -(v * dt);
  }
}
