/** What every step of every run of the simulated drive keeps. */
module DriveInvariants {
  import opened Prelude
  import opened Codec
  import opened Bits
  import opened DriveSpec
  import Statusword

  // ------------------------------------------------------------ the invariant

  /** The position is where the soft limits leave it. */
  predicate WithinLimits(d: Drive) {
    d.axis.position == Clamp(d.limits, d.axis.position)
  }

  predicate AxisFits(axis: Axis) {
    IsInt32(axis.position) && IsInt32(axis.velocity) && !(axis.targetReached && axis.isMoving)
  }

  predicate RegistersFit(r: Registers) {
    && IsInt32(r.targetPosition) && IsInt32(r.profileVelocity) && IsInt32(r.acceleration)
    && IsInt32(r.deceleration) && IsInt32(r.targetVelocity) && IsInt32(r.positionWindow)
    && 0 <= r.homingMethod < 256
  }

  predicate LimitsFit(limits: Limits) {
    IsInt32(limits.low) && IsInt32(limits.high)
  }

  predicate AtMostOneMotion(f: Flags) {
    !(f.pv && f.pp) && !(f.pv && f.homing) && !(f.pp && f.homing)
  }

  predicate StateFits(d: Drive) {
    && IsWord(d.lastControlword) && -128 <= d.mode < 128 && d.display == d.mode
    && d.home.diagCode in {1, 0x23}
    && (d.state == Faulted ==> d.fault) && d.state != QuickStopActive
    && (d.flags.ack ==> HoldsSetPoint(d))
  }

  predicate Valid(d: Drive) {
    && WithinLimits(d) && AxisFits(d.axis) && RegistersFit(d.regs) && LimitsFit(d.limits)
    && AtMostOneMotion(d.flags) && StateFits(d)
  }

  // ------------------------------------------------------------ words and bytes

  lemma UnpackedRange(raw: seq<Byte>, size: nat)
    requires SupportedSize(size)
    ensures InRange(SignedOf(raw, size), size, true)
    ensures InRange(UnsignedOf(raw, size), size, false)
  {
    UnpackThenPack(FitTo(raw, size), true, Little);
    UnpackThenPack(FitTo(raw, size), false, Little);
  }

  lemma UnpackedRanges(raw: seq<Byte>)
    ensures -128 <= SignedOf(raw, 1) < 128 && 0 <= UnsignedOf(raw, 1) < 256
    ensures IsInt32(SignedOf(raw, 4)) && IsWord(UnsignedOf(raw, 2))
  {
    Pow256Values();
    UnpackedRange(raw, 1);
    UnpackedRange(raw, 2);
    UnpackedRange(raw, 4);
  }

  lemma BitsOfSum(low: nat, w: bool, t: bool, a: bool, e: bool)
    requires low < 0x80
    ensures var sw := low + Mark(w, 0x80) + 0x200 + Mark(t, 0x400) + Mark(a, 0x1000) + Mark(e, 0x2000);
            && sw % 0x80 == low
            && !HasBit(sw, 0x100) && HasBit(sw, 0x200)
            && HasBit(sw, 0x400) == t && HasBit(sw, 0x1000) == a && HasBit(sw, 0x2000) == e
            && HasBit(sw, 0x80) == w
  {
    var sw := low + Mark(w, 0x80) + 0x200 + Mark(t, 0x400) + Mark(a, 0x1000) + Mark(e, 0x2000);
    assert sw / 0x80 == Mark(w, 1) + 4 + Mark(t, 8) + Mark(a, 0x20) + Mark(e, 0x40);
    assert sw / 0x100 == 2 + Mark(t, 4) + Mark(a, 0x10) + Mark(e, 0x20);
    assert sw / 0x200 == 1 + Mark(t, 2) + Mark(a, 8) + Mark(e, 0x10);
    assert sw / 0x400 == Mark(t, 1) + Mark(a, 4) + Mark(e, 8);
    assert sw / 0x1000 == Mark(a, 1) + Mark(e, 2);
    assert sw / 0x2000 == Mark(e, 1);
  }

  function LowSum(d: Drive): nat {
    StateBits(d.state) + Mark(d.fault || d.state == Faulted, Statusword.FAULT)
  }

  lemma LowBits0To2(high: nat, low: nat)
    ensures HasBit(0x80 * high + low, 1) == HasBit(low, 1)
    ensures HasBit(0x80 * high + low, 2) == HasBit(low, 2)
    ensures HasBit(0x80 * high + low, 4) == HasBit(low, 4)
  {
    assert (0x80 * high + low) / 2 == 0x40 * high + low / 2;
    assert (0x80 * high + low) / 4 == 0x20 * high + low / 4;
  }

  lemma LowBits3To6(high: nat, low: nat)
    ensures HasBit(0x80 * high + low, 8) == HasBit(low, 8)
    ensures HasBit(0x80 * high + low, 0x20) == HasBit(low, 0x20)
    ensures HasBit(0x80 * high + low, 0x40) == HasBit(low, 0x40)
  {
    assert (0x80 * high + low) / 8 == 0x10 * high + low / 8;
    assert (0x80 * high + low) / 0x20 == 4 * high + low / 0x20;
    assert (0x80 * high + low) / 0x40 == 2 * high + low / 0x40;
  }

  lemma LowBit4(high: nat, low: nat)
    ensures HasBit(0x80 * high + low, 0x10) == HasBit(low, 0x10)
  {
    assert (0x80 * high + low) / 0x10 == 8 * high + low / 0x10;
  }

  /** The bits below 0x80 do not depend on the rest of the word. */
  lemma LowBits(sw: nat, low: nat)
    requires sw % 0x80 == low
    ensures HasBit(sw, 1) == HasBit(low, 1) && HasBit(sw, 2) == HasBit(low, 2)
    ensures HasBit(sw, 4) == HasBit(low, 4) && HasBit(sw, 8) == HasBit(low, 8) && HasBit(sw, 0x10) == HasBit(low, 0x10)
    ensures HasBit(sw, 0x20) == HasBit(low, 0x20) && HasBit(sw, 0x40) == HasBit(low, 0x40)
  {
    assert sw == 0x80 * (sw / 0x80) + low;
    LowBits0To2(sw / 0x80, low);
    LowBits3To6(sw / 0x80, low);
    LowBit4(sw / 0x80, low);
  }

  /** Each statusword bit says one thing about the drive, and nothing else does. */
  lemma StatuswordBits(d: Drive)
    ensures IsWord(MakeStatusword(d))
    ensures HasBit(MakeStatusword(d), 0x0200)
    ensures HasBit(MakeStatusword(d), 0x0008) <==> d.fault || d.state == Faulted
    ensures HasBit(MakeStatusword(d), 0x0400) <==> d.axis.targetReached && !d.axis.isMoving
    ensures HasBit(MakeStatusword(d), 0x1000) <==> (d.mode == 6 && d.home.homed) || (d.mode == 1 && d.flags.ack)
    ensures HasBit(MakeStatusword(d), 0x2000) <==> d.mode == 6 && d.home.error
    ensures HasBit(MakeStatusword(d), 0x0080) <==> d.warning
    ensures !HasBit(MakeStatusword(d), 0x0100)
    ensures MakeStatusword(d) % 0x80 == LowSum(d)
  {
    BitsOfSum(LowSum(d), d.warning, Reports10(d.axis), Reports12(d), Reports13(d));
    LowBits(MakeStatusword(d), LowSum(d));
  }

  /** The bits that show the state, by their numbers in the standard's table. */
  lemma StateBitsAre(d: Drive)
    ensures var sw := MakeStatusword(d);
            && (HasBit(sw, 0x0001) <==> d.state in {ReadyToSwitchOn, SwitchedOn, OperationEnabled, QuickStopActive})
            && (HasBit(sw, 0x0002) <==> d.state in {SwitchedOn, OperationEnabled, QuickStopActive})
            && (HasBit(sw, 0x0004) <==> d.state == OperationEnabled)
            && (HasBit(sw, 0x0008) <==> d.fault || d.state == Faulted)
            && (HasBit(sw, 0x0010) <==> d.state in {ReadyToSwitchOn, SwitchedOn, OperationEnabled, QuickStopActive})
            && (HasBit(sw, 0x0020) <==> d.state in {ReadyToSwitchOn, SwitchedOn, OperationEnabled})
            && (HasBit(sw, 0x0040) <==> d.state in {SwitchOnDisabled, Faulted})
  {
    StatuswordBits(d);
    LowBits(MakeStatusword(d), LowSum(d));
  }

  function StateOf(s: State): Statusword.CiA402State {
    match s
    case SwitchOnDisabled => Statusword.SwitchOnDisabled
    case ReadyToSwitchOn => Statusword.ReadyToSwitchOn
    case SwitchedOn => Statusword.SwitchedOn
    case OperationEnabled => Statusword.OperationEnabled
    case Faulted => Statusword.Fault
    case QuickStopActive => Statusword.SwitchedOn
  }

  /** What the driver infers from the statusword of a drive in this condition. */
  function Reported(s: State, fault: bool): Statusword.CiA402State {
    if !fault then StateOf(s)
    else if s == OperationEnabled then Statusword.FaultReactionActive
    else Statusword.Fault
  }

  /** The driver reads back the simulator's state. A fault shows as FAULT, or as
      FAULT_REACTION_ACTIVE exactly when it strikes an enabled drive. The state
      QUICK_STOP_ACTIVE, which no run reaches, would be misread as SWITCHED_ON. */
  lemma StateReadsBack(d: Drive)
    ensures Statusword.InferState(MakeStatusword(d)) == Reported(d.state, d.fault)
  {
    var sw := MakeStatusword(d);
    StatuswordBits(d);
    LowBits(sw, LowSum(d));
  }

  // ------------------------------------------------------------ single steps

  lemma InitialIsValid(now: int)
    ensures Valid(Initial(now))
  {
  }

  lemma StartKeepsValid(d: Drive, relative: bool, now: int)
    requires Valid(d) && HoldsSetPoint(d)
    ensures Valid(StartProfileVelocity(d)) && Valid(StartProfilePosition(d, relative)) && Valid(StartHoming(d, now))
  {
  }

  lemma ObeyKeepsValid(d: Drive, c: Command, rising: bool, now: int)
    requires Valid(d) && (rising ==> HoldsSetPoint(d))
    ensures Valid(Obey(d, c, rising, now))
  {
    if rising && Climb(d.state, c) == OperationEnabled {
      StartKeepsValid(d.(state := Climb(d.state, c)), c.relative, now);
    }
  }

  lemma ControlwordKeepsValid(d: Drive, cw: int, now: int)
    requires Valid(d) && IsWord(cw)
    ensures Valid(ApplyControlword(d, cw, now))
  {
    ObeyKeepsValid(LatchControlword(d, cw), Decode(cw), RisingEdge(d, cw), now);
  }

  /** Whatever the engine computes, the clamp brings it back inside. */
  lemma ClampedAxisFits(limits: Limits, axis: Axis)
    requires LimitsFit(limits) && IsInt32(axis.velocity) && !(axis.targetReached && axis.isMoving)
    ensures var clamped := ClampAxis(limits, axis);
            AxisFits(clamped) && clamped.position == Clamp(limits, clamped.position)
  {
  }

  lemma ClampedAxisKeepsValid(d: Drive, axis: Axis, flags: Flags, home: Home)
    requires Valid(d) && IsInt32(axis.velocity) && !(axis.targetReached && axis.isMoving)
    requires AtMostOneMotion(flags) && flags.ack == d.flags.ack && home.diagCode in {1, 0x23}
    ensures Valid(d.(axis := ClampAxis(d.limits, axis), flags := flags, home := home))
  {
    ClampedAxisFits(d.limits, axis);
  }

  lemma RampFits(axis: Axis, direction: int, speed: int, distance: int)
    requires -1 <= direction <= 1 && 1 <= speed <= 20000
    ensures var next := RampHome(axis, direction, speed, distance); IsInt32(next.velocity) && !next.targetReached
  {
    assert direction in {-1, 0, 1};
  }

  lemma HomingTickKeepsValid(d: Drive, dt: int, now: int)
    requires Valid(d)
    ensures Valid(HomingTick(d, dt, now))
  {
    if now - d.home.startedAt >= d.home.duration {
      ClampedAxisKeepsValid(d, Axis(0, 0, false, true), d.flags.(homing := false),
                            d.home.(homed := true, error := false, diagCode := 1));
    } else {
      var v := CruiseSpeed(d.regs.profileVelocity);
      var direction := if d.axis.position > 0 then -1 else if d.axis.position < 0 then 1 else 0;
      var distance := Travel(direction * v, dt);
      RampFits(d.axis, direction, v, distance);
      ClampedAxisKeepsValid(d, RampHome(d.axis, direction, v, distance), d.flags, d.home);
    }
  }

  lemma PositionTickKeepsValid(d: Drive, dt: nat)
    requires Valid(d)
    ensures Valid(PositionTick(d, dt))
  {
    if d.axis.position != d.goal {
      var v := CruiseSpeed(d.regs.profileVelocity);
      var landed := Approach(d.axis.position, d.goal, v * dt / MICROSECONDS);
      var reached := landed == d.goal;
      var speed := if reached then 0 else if d.goal > d.axis.position then v else -v;
      ClampedAxisFits(d.limits, Axis(landed, speed, !reached, reached));
    }
  }

  lemma VelocityTickKeepsValid(d: Drive, dt: int)
    requires Valid(d)
    ensures Valid(VelocityTick(d, dt))
  {
    var tv := d.regs.targetVelocity;
    ClampedAxisFits(d.limits, Axis(d.axis.position + Travel(tv, dt), tv, true, false));
  }

  lemma TickKeepsValid(d: Drive, now: int)
    requires Valid(d)
    ensures Valid(Tick(d, now))
  {
    var seen, dt := d.(lastTick := now), TickLength(d.lastTick, now);
    if d.flags.homing && d.mode == MODE_HOMING { HomingTickKeepsValid(seen, dt, now); }
    else if d.flags.pp && d.mode == MODE_PROFILE_POSITION { PositionTickKeepsValid(seen, dt); }
    else if d.flags.pv && d.mode == MODE_PROFILE_VELOCITY { VelocityTickKeepsValid(seen, dt); }
  }

  lemma LimitKeepsValid(d: Drive, subindex: int, value: int)
    requires Valid(d) && IsInt32(value)
    ensures Valid(WriteLimit(d, subindex, value))
  {
    ClampedAxisFits(StoreLimit(d.limits, subindex, value), d.axis);
  }

  lemma RegisterKeepsValid(r: Registers, index: int, signed: int, byte: int)
    requires RegistersFit(r) && IsInt32(signed) && 0 <= byte < 256
    ensures RegistersFit(StoreRegister(r, index, signed, byte))
  {
  }

  lemma WriteKeepsValid(d: Drive, index: int, subindex: int, raw: seq<Byte>, now: int)
    requires Valid(d)
    ensures Valid(WriteObject(d, index, subindex, raw, now))
  {
    UnpackedRanges(raw);
    var kept := Keep(d, index, subindex, raw);
    if index == CONTROLWORD {
      ControlwordKeepsValid(kept, UnsignedOf(raw, 2), now);
    } else if index == POSITION_RANGE_LIMIT {
      LimitKeepsValid(kept, subindex, SignedOf(raw, 4));
    } else {
      RegisterKeepsValid(d.regs, index, SignedOf(raw, 4), UnsignedOf(raw, 1));
    }
  }

  lemma StepKeepsValid(d: Drive, step: Step)
    requires Valid(d)
    ensures Valid(Apply(d, step))
  {
    match step
    case Engine(now) => TickKeepsValid(d, now);
    case Object(index, subindex, raw, at) => WriteKeepsValid(d, index, subindex, raw, at);
    case EmergencyButton =>
    case FaultInjected =>
  }

  lemma {:induction false} RunKeepsValid(d: Drive, steps: seq<Step>)
    requires Valid(d)
    ensures Valid(Run(d, steps))
    decreases |steps|
  {
    if steps != [] {
      StepKeepsValid(d, steps[0]);
      RunKeepsValid(Apply(d, steps[0]), steps[1..]);
    }
  }

  // ------------------------------------------------------------ main results

  /** Soft-limit safety: after any run the position is inside ordered limits, or at the upper
      limit when they are inverted, and position and velocity always encode as INT32. */
  lemma SoftLimitSafety(start: int, steps: seq<Step>)
    ensures var d := Run(Initial(start), steps);
            && (d.limits.low <= d.limits.high ==> d.limits.low <= d.axis.position <= d.limits.high)
            && (d.limits.low > d.limits.high ==> d.axis.position == d.limits.high)
            && ReadObject(d, POSITION_ACTUAL, 0, 4).Ok?
            && ReadObject(d, VELOCITY_ACTUAL, 0, 4).Ok?
  {
    InitialIsValid(start);
    RunKeepsValid(Initial(start), steps);
    var d := Run(Initial(start), steps);
    Pow256Values();
    PackThenUnpack(d.axis.position, 4, true, Little);
    PackThenUnpack(d.axis.velocity, 4, true, Little);
  }

  /** A write that raises bit 4 of the controlword. */
  predicate Starts(d: Drive, step: Step) {
    step.Object? && step.index == CONTROLWORD && RisingEdge(d, UnsignedOf(step.raw, 2))
  }

  predicate NewMotion(before: Flags, after: Flags) {
    (after.pv && !before.pv) || (after.pp && !before.pp) || (after.homing && !before.homing)
  }

  lemma ObeyStartsAtRisingEdge(d: Drive, c: Command, rising: bool, now: int)
    requires Valid(d) && NewMotion(d.flags, Obey(d, c, rising, now).flags)
    ensures var after := Obey(d, c, rising, now);
            && rising && !d.emergency && !d.fault && after.state == OperationEnabled
            && (after.flags.pv ==> d.mode == MODE_PROFILE_VELOCITY)
            && (after.flags.pp ==> d.mode == MODE_PROFILE_POSITION)
            && (after.flags.homing ==> d.mode == MODE_HOMING)
  {
  }

  lemma TickStartsNothing(d: Drive, now: int)
    ensures !NewMotion(d.flags, Tick(d, now).flags)
  {
  }

  lemma OtherWriteStartsNothing(d: Drive, index: int, subindex: int, raw: seq<Byte>, now: int)
    requires index != CONTROLWORD
    ensures !NewMotion(d.flags, WriteObject(d, index, subindex, raw, now).flags)
  {
  }

  /** A motion flag turns on only at a rising edge of bit 4 written to an enabled, fault-free
      drive in the mode that belongs to the flag. */
  lemma MotionStartsAtRisingEdge(d: Drive, step: Step)
    requires Valid(d) && NewMotion(d.flags, Apply(d, step).flags)
    ensures var after := Apply(d, step);
            && Starts(d, step) && !d.emergency && !d.fault && after.state == OperationEnabled
            && (after.flags.pv ==> d.mode == MODE_PROFILE_VELOCITY)
            && (after.flags.pp ==> d.mode == MODE_PROFILE_POSITION)
            && (after.flags.homing ==> d.mode == MODE_HOMING)
  {
    if step.Engine? {
      TickStartsNothing(d, step.now);
    } else if step.Object? && step.index == CONTROLWORD {
      var kept, cw := Keep(d, step.index, step.subindex, step.raw), UnsignedOf(step.raw, 2);
      UnpackedRanges(step.raw);
      ObeyStartsAtRisingEdge(LatchControlword(kept, cw), Decode(cw), RisingEdge(kept, cw), step.at);
    } else if step.Object? {
      OtherWriteStartsNothing(d, step.index, step.subindex, step.raw, step.at);
    }
  }

  /** The drive never reports QUICK_STOP_ACTIVE or an undecodable state, whatever happens to it. */
  lemma ReportedStates(start: int, steps: seq<Step>)
    ensures var d := Run(Initial(start), steps);
            var seen := Statusword.InferState(MakeStatusword(d));
            && d.state != QuickStopActive
            && seen !in {Statusword.Unknown, Statusword.NotReadyToSwitchOn, Statusword.QuickStopActive}
            && (seen in {Statusword.Fault, Statusword.FaultReactionActive} <==> d.fault)
            && (!d.fault ==> seen == StateOf(d.state))
  {
    InitialIsValid(start);
    RunKeepsValid(Initial(start), steps);
    StateReadsBack(Run(Initial(start), steps));
  }

  /** Reading the mode fails exactly when it is negative: the mode is masked to 0..255 and
      then packed as a signed byte. */
  lemma ModeReadFailsWhenNegative(d: Drive)
    requires Valid(d)
    ensures ReadObject(d, MODES_OF_OPERATION_DISPLAY, 0, 1).Err? <==> d.display < 0
  {
    Pow256Values();
  }
}
