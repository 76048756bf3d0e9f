/** The simulated drive in velocity mode: turning, and standing still. */
module Turning {
  import opened Codec
  import opened Bits
  import opened DriveSpec
  import opened DriveControl
  import opened Bus
  import opened Pursuit
  import Controlword

  /** Enabled, without fault or emergency, bit 4 low, the mode accepted. */
  predicate Enabled(d: Drive) {
    d.state == OperationEnabled && !d.emergency && !d.fault && !HoldsSetPoint(d) && d.display == d.mode
  }

  predicate InVelocityMode(d: Drive) {
    Enabled(d) && d.mode == MODE_PROFILE_VELOCITY
  }

  /** The axis follows a nonzero target velocity. */
  predicate Turns(d: Drive, velocity: int) {
    && d.state == OperationEnabled && !d.emergency && !d.fault && d.mode == MODE_PROFILE_VELOCITY && d.display == d.mode
    && d.flags.pv && !d.flags.pp && !d.flags.homing && d.regs.targetVelocity == velocity != 0
  }

  /** The target velocity is zero, so the engine leaves the axis where it is. */
  predicate Stands(d: Drive) {
    d.mode == MODE_PROFILE_VELOCITY && d.regs.targetVelocity == 0
  }

  lemma {:induction false} TicksKeepEnabled(d: Drive, steps: seq<Step>)
    requires EnvSteps(steps, false) && Enabled(d)
    ensures Enabled(Run(d, steps)) && Run(d, steps).mode == d.mode
    ensures Run(d, steps).regs.targetVelocity == d.regs.targetVelocity
    decreases |steps|
  {
    if steps != [] {
      assert EnvStep(steps[0], false);
      TickKeepsControl(d, steps[0].now);
      TicksKeepEnabled(Apply(d, steps[0]), steps[1..]);
    }
  }

  /** A turning axis goes on in the direction of its velocity, inside the limits, as far as the
      time allows. */
  lemma TickTurns(d: Drive, now: int, velocity: int)
    requires Turns(d, velocity)
    ensures var next := Tick(d, now);
            && Turns(next, velocity) && next.axis.velocity == velocity && next.limits == d.limits
            && next.axis.position == Clamp(d.limits, d.axis.position + Travel(velocity, TickLength(d.lastTick, now)))
  {
  }

  lemma TravelFollowsSign(velocity: int, dt: nat)
    ensures velocity >= 0 ==> Travel(velocity, dt) >= 0
    ensures velocity <= 0 ==> Travel(velocity, dt) <= 0
  {
    if velocity >= 0 {
      assert velocity * dt >= 0;
    } else {
      assert -(velocity * dt) == -velocity * dt >= 0;
    }
  }

  /** Over any ticks a turning axis never moves against its velocity. */
  lemma {:induction false} TicksTurn(d: Drive, steps: seq<Step>, velocity: int)
    requires EnvSteps(steps, false) && Turns(d, velocity) && d.limits.low <= d.axis.position <= d.limits.high
    ensures var after := Run(d, steps);
            && Turns(after, velocity) && after.limits == d.limits
            && d.limits.low <= after.axis.position <= d.limits.high
            && (velocity > 0 ==> after.axis.position >= d.axis.position)
            && (velocity < 0 ==> after.axis.position <= d.axis.position)
    decreases |steps|
  {
    if steps != [] {
      assert EnvStep(steps[0], false);
      TickTurns(d, steps[0].now, velocity);
      TravelFollowsSign(velocity, TickLength(d.lastTick, steps[0].now));
      TicksTurn(Apply(d, steps[0]), steps[1..], velocity);
    }
  }

  /** With target velocity zero the axis stays where it is through any ticks, although its
      motion flag may stay set. */
  lemma {:induction false} TicksStand(d: Drive, steps: seq<Step>)
    requires EnvSteps(steps, false) && Stands(d)
    ensures Stands(Run(d, steps)) && Run(d, steps).axis.position == d.axis.position
    ensures steps != [] ==> Run(d, steps).axis.velocity == 0
    decreases |steps|
  {
    if steps != [] {
      assert EnvStep(steps[0], false);
      TicksStand(Apply(d, steps[0]), steps[1..]);
    }
  }

  /** The target velocity has been taken over: the axis turns, or stands when it is zero. */
  predicate Follows(d: Drive, velocity: int) {
    && d.state == OperationEnabled && !d.emergency && !d.fault && d.display == d.mode
    && (if velocity != 0 then Turns(d, velocity) else Stands(d))
  }

  lemma EdgeTakesVelocity(d: Drive, cw: int, now: int)
    requires InVelocityMode(d) && IsWord(cw) && Holds(cw) && HasBit(cw, Controlword.NEW_SET_POINT)
    ensures Follows(ApplyControlword(d, cw, now), d.regs.targetVelocity)
  {
    HeldCommand(cw);
  }

  lemma ReleaseKeepsFollowing(d: Drive, velocity: int, cw: int, now: int)
    requires Follows(d, velocity) && IsWord(cw) && Holds(cw) && !HasBit(cw, Controlword.NEW_SET_POINT)
    ensures Follows(ApplyControlword(d, cw, now), velocity) && !HoldsSetPoint(ApplyControlword(d, cw, now))
  {
    HeldCommand(cw);
  }

  lemma {:induction false} TicksKeepFollowing(d: Drive, steps: seq<Step>, velocity: int)
    requires EnvSteps(steps, false) && Follows(d, velocity)
    ensures Follows(Run(d, steps), velocity)
    decreases |steps|
  {
    if steps != [] {
      assert EnvStep(steps[0], false);
      TicksKeepFollowing(Apply(d, steps[0]), steps[1..], velocity);
    }
  }

  /** Writing a parameter leaves an enabled drive enabled. */
  lemma ParameterKeepsEnabled(d: Drive, e: Event, index: int, value: int, size: nat, signed: bool)
    requires Enabled(d) && index !in {CONTROLWORD, POSITION_RANGE_LIMIT}
    requires Acknowledges(e, index, 0, value, size, signed)
    ensures Enabled(Effect(d, e))
    ensures index != MODES_OF_OPERATION ==> Effect(d, e).mode == d.mode
    ensures index == MODES_OF_OPERATION && size == 1 && 0 <= value < 128 ==> Effect(d, e).mode == value
    ensures index == TARGET_VELOCITY && size == 4 && signed ==> Effect(d, e).regs.targetVelocity == value
  {
    PackThenUnpack(value, size, signed, Little);
    assert FitTo(e.raw, size) == e.raw;
    if index == MODES_OF_OPERATION && size == 1 && 0 <= value < 128 {
      Pow256Values();
    }
  }
}

/** Profile-velocity commands: src/dryve_d1/motion/profile_velocity.py. */
module ProfileVelocity {
  import opened Prelude
  import opened Codec
  import opened Bits
  import opened DriveSpec
  import opened DriveControl
  import opened Access
  import opened Bus
  import opened Preparation
  import opened Pursuit
  import opened Turning
  import Controlword

  const QUICK_STOP_DECELERATION: int := 0x6085

  datatype Config = Config(
    ramps: Ramps,
    verifyMode: bool,
    pollInterval: nat,
    modeSetTimeout: int,
    modeSettle: nat
  )

  datatype Ramps = Ramps(acceleration: Option<int>, deceleration: Option<int>, quickStopDecel: Option<int>) {
    predicate AllFit() {
      Fits(acceleration) && Fits(deceleration) && Fits(quickStopDecel)
    }

    function Writes(): seq<Param> {
      IfSet(0x6083, 0, acceleration) + IfSet(0x6084, 0, deceleration) + IfSet(0x6085, 0, quickStopDecel)
    }

    /** These arguments, completed from what is configured. */
    function Over(configured: Ramps): Ramps {
      Ramps(Either(acceleration, configured.acceleration), Either(deceleration, configured.deceleration),
            Either(quickStopDecel, configured.quickStopDecel))
    }
  }

  /** Every parameter is written as the call gives it, or else as it is configured, or not at all. */
  lemma ArgumentsGoFirst(a: Ramps, c: Ramps)
    ensures a.Over(c).Writes()
            == OneOf(0x6083, 0, a.acceleration, c.acceleration) + OneOf(0x6084, 0, a.deceleration, c.deceleration)
               + OneOf(0x6085, 0, a.quickStopDecel, c.quickStopDecel)
  {
  }

  class ProfileVelocity {
    const bus: RegisterBus
    const cfg: Config
    /** Whether this helper was given an abort event; it only matters to `Halt`. */
    const watchesAbort: bool

    constructor (bus: RegisterBus, cfg: Config, watchesAbort: bool)
      ensures this.bus == bus && this.cfg == cfg && this.watchesAbort == watchesAbort
    {
      this.bus, this.cfg, this.watchesAbort := bus, cfg, watchesAbort;
    }

    /** Write one parameter object while the simulated drive may be enabled. */
    method WriteOne(index: int, value: int, size: nat, signed: bool) returns (r: Result<(), Failure>)
      requires bus.Valid() && SupportedSize(size) && index !in {CONTROLWORD, POSITION_RANGE_LIMIT}
      modifies bus`trace, bus`between, bus`params, bus.sim
      ensures bus.Valid() && old(bus.trace) <= bus.trace && QuietFrom(bus.trace, |old(bus.trace)|)
      ensures bus.params == old(bus.params) + (if InRange(value, size, signed) then [Param(index, 0, value)] else [])
      ensures r.Ok? ==> InRange(value, size, signed) && |old(bus.trace)| < |bus.trace|
                        && Acknowledges(bus.trace[|bus.trace| - 1], index, 0, value, size, signed)
                        && NothingLost(bus.trace, |old(bus.trace)|)
      ensures r.Err? ==> if InRange(value, size, signed) then r.error == AccessFailed && |old(bus.trace)| < |bus.trace|
                              && bus.trace[|bus.trace| - 1] == WriteLost(index, 0, value)
                         else r.error == ValueRefused && bus.trace == old(bus.trace)
      ensures bus.live ==> (r.Ok? <==> InRange(value, size, signed)) && (r.Err? ==> r.error == ValueRefused)
      ensures bus.Closed() && Enabled(old(bus.sim.View())) ==>
                && Enabled(bus.sim.View())
                && (index != MODES_OF_OPERATION ==> bus.sim.View().mode == old(bus.sim.View()).mode)
                && (index == MODES_OF_OPERATION && size == 1 && r.Ok? && 0 <= value < 128 ==>
                      bus.sim.View().mode == value)
                && (index == TARGET_VELOCITY && size == 4 && signed && r.Ok? ==>
                      bus.sim.View().regs.targetVelocity == value)
    {
      r := WriteQuietParam(bus, index, value, size, signed);
      if r.Ok? && bus.Closed() && Enabled(old(bus.sim.View())) {
        TicksKeepEnabled(old(bus.sim.View()), bus.between);
        ParameterKeepsEnabled(DriveSpec.Run(old(bus.sim.View()), bus.between), bus.trace[|bus.trace| - 1],
                              index, value, size, signed);
      }
    }

    /** With verification off a fixed settling time stands in for the mode display. */
    method EnsureMode() returns (r: Result<(), Failure>, ghost shown: Option<Result<bool, Failure>>)
      requires bus.Valid()
      modifies bus`trace, bus`between, bus`params, bus`now, bus.sim
      ensures bus.Valid() && old(bus.trace) <= bus.trace
      ensures r.Ok? ==> NoParamLost(bus.trace, |old(bus.trace)|)
      ensures bus.params == old(bus.params) + [Param(0x6060, 0, 3)]
      ensures r.Ok? ==>
                bus.now >= old(bus.now) + (if cfg.verifyMode then cfg.pollInterval else Max(10_000, cfg.modeSettle))
      ensures ModeEnsured(|old(bus.trace)|, bus.trace, 3, cfg.modeSetTimeout, shown,
                          cfg.verifyMode, cfg.verifyMode, r)
      ensures bus.Closed() && Enabled(old(bus.sim.View())) ==> r.Ok? && InVelocityMode(bus.sim.View())
    {
      ByteFits(MODE_PROFILE_VELOCITY);
      var written := WriteOne(MODES_OF_OPERATION, MODE_PROFILE_VELOCITY, 1, false);
      if written.Err? {
        return written, None;
      }
      ghost var from, chosen := |bus.trace|, bus.trace;
      if !cfg.verifyMode {
        bus.Sleep(Max(10_000, cfg.modeSettle));
        return Ok(()), None;
      }
      bus.Sleep(cfg.pollInterval);
      ghost var ready, steps := bus.sim.View(), [];
      var seen;
      seen, steps := AwaitMode(bus, MODE_PROFILE_VELOCITY, cfg.modeSetTimeout, cfg.pollInterval);
      if bus.Closed() && Enabled(old(bus.sim.View())) {
        TicksKeepEnabled(ready, steps);
      }
      ModeWaitOnlyReads(bus.trace, from, MODE_PROFILE_VELOCITY, cfg.modeSetTimeout, seen);
      ParamsJoin(old(bus.trace), chosen, bus.trace);
      shown := Some(seen);
      assert Acknowledges(bus.trace[from - 1], 0x6060, 0, MODE_PROFILE_VELOCITY, 1, false);
      assert ModeChecked(|old(bus.trace)|, bus.trace, MODE_PROFILE_VELOCITY, cfg.modeSetTimeout, seen);
      if seen.Err? {
        return Err(seen.error), shown;
      }
      return if seen.value then Ok(()) else Err(ModeNotConfirmed), shown;
    }

    method ConfigureOne(index: int, value: Option<int>) returns (r: Result<(), Failure>)
      requires bus.Valid() && index in {PROFILE_ACCELERATION, PROFILE_DECELERATION, QUICK_STOP_DECELERATION}
      modifies bus`trace, bus`between, bus`params, bus.sim
      ensures bus.Valid() && old(bus.trace) <= bus.trace
      ensures r.Ok? ==> NoParamLost(bus.trace, |old(bus.trace)|)
      ensures r.Ok? ==> bus.params == old(bus.params) + IfSet(index, 0, value) && Fits(value)
      ensures r.Err? ==> WriteFails(bus.trace, Fits(value), r.error)
      ensures bus.live ==> (r.Ok? <==> Fits(value)) && (r.Err? ==> r.error == ValueRefused)
      ensures bus.Closed() && Enabled(old(bus.sim.View())) ==>
                Enabled(bus.sim.View()) && bus.sim.View().mode == old(bus.sim.View()).mode
    {
      if value.None? {
        return Ok(());
      }
      r := WriteOne(index, value.value, 4, false);
    }

    method Configure(arguments: Ramps) returns (r: Result<(), Failure>)
      requires bus.Valid()
      modifies bus`trace, bus`between, bus`params, bus.sim
      ensures bus.Valid() && old(bus.trace) <= bus.trace
      ensures r.Ok? ==> NoParamLost(bus.trace, |old(bus.trace)|)
      ensures r.Ok? ==> && bus.params == old(bus.params) + arguments.Over(cfg.ramps).Writes()
                        && arguments.Over(cfg.ramps).AllFit()
      ensures r.Err? ==> WriteFails(bus.trace, arguments.Over(cfg.ramps).AllFit(), r.error)
      ensures bus.live ==> (r.Ok? <==> arguments.Over(cfg.ramps).AllFit()) && (r.Err? ==> r.error == ValueRefused)
      ensures bus.Closed() && Enabled(old(bus.sim.View())) ==>
                Enabled(bus.sim.View()) && bus.sim.View().mode == old(bus.sim.View()).mode
    {
      var effective := arguments.Over(cfg.ramps);
      var _ :- ConfigureOne(PROFILE_ACCELERATION, effective.acceleration);
      ghost var first := bus.trace;
      var _ :- ConfigureOne(PROFILE_DECELERATION, effective.deceleration);
      ghost var second := bus.trace;
      var _ :- ConfigureOne(QUICK_STOP_DECELERATION, effective.quickStopDecel);
      ParamsJoin(old(bus.trace), first, second);
      ParamsJoin(old(bus.trace), second, bus.trace);
      return Ok(());
    }

    /** On the simulator a target velocity of zero stands the axis still for good, wherever it
        was going in velocity mode. */
    method SetTargetVelocity(velocity: int) returns (r: Result<(), Failure>)
      requires bus.Valid()
      modifies bus`trace, bus`between, bus`params, bus.sim
      ensures bus.Valid() && old(bus.trace) <= bus.trace && QuietFrom(bus.trace, |old(bus.trace)|)
      ensures bus.params == old(bus.params) + (if IsInt32(velocity) then [Param(TARGET_VELOCITY, 0, velocity)] else [])
      ensures r.Ok? ==> IsInt32(velocity)
                        && |old(bus.trace)| < |bus.trace|
                        && Acknowledges(bus.trace[|bus.trace| - 1], 0x60FF, 0, velocity, 4, true)
                        && NothingLost(bus.trace, |old(bus.trace)|)
      ensures r.Err? ==> WriteFails(bus.trace, IsInt32(velocity), r.error)
      ensures IsInt32(velocity) ==> |old(bus.trace)| < |bus.trace|
      ensures bus.live ==> (r.Ok? <==> IsInt32(velocity)) && (r.Err? ==> r.error == ValueRefused)
      ensures bus.Closed() && Enabled(old(bus.sim.View())) ==>
                && Enabled(bus.sim.View()) && bus.sim.View().mode == old(bus.sim.View()).mode
                && (r.Ok? ==> bus.sim.View().regs.targetVelocity == velocity)
      ensures bus.Closed() && InVelocityMode(old(bus.sim.View())) && velocity == 0 ==> Stands(bus.sim.View())
    {
      Int32Fits(velocity);
      r := WriteOne(TARGET_VELOCITY, velocity, 4, true);
    }

    /** Pulse bit 4. On the simulator, in velocity mode, the axis then follows the target
        velocity written before, and bit 4 is low again. */
    method LatchNewSetpoint() returns (r: Result<(), Failure>)
      requires bus.Valid()
      modifies bus`trace, bus`between, bus`words, bus.sim
      ensures bus.Valid() && old(bus.trace) < bus.trace
      ensures bus.words == old(bus.words) + [0x1F] || bus.words == old(bus.words) + [0x1F, 0x0F]
      ensures bus.words == old(bus.words) + [0x1F] <==> LostAtEnd(old(bus.trace), bus.trace, 0x1F)
      ensures bus.words == old(bus.words) + [0x1F, 0x0F] && r.Err? <==> LostAtEnd(old(bus.trace), bus.trace, 0x0F)
      ensures r.Ok? ==> bus.words == old(bus.words) + [0x1F, 0x0F] && NothingLost(bus.trace, |old(bus.trace)|)
      ensures r.Err? ==> r.error == AccessFailed
      ensures bus.Closed() && InVelocityMode(old(bus.sim.View())) ==>
                && r.Ok? && InVelocityMode(bus.sim.View())
                && Follows(bus.sim.View(), old(bus.sim.View()).regs.targetVelocity)
    {
      var (setWord, clearWord) := Controlword.PulseNewSetPoint(Controlword.ENABLE_OPERATION);
      assert (setWord, clearWord) == (0x1F, 0x0F);
      ghost var velocity := bus.sim.View().regs.targetVelocity;
      var _ :- Raise(setWord);
      r := Release(clearWord, velocity);
    }

    method Raise(setWord: int) returns (r: Result<(), Failure>)
      requires bus.Valid() && IsWord(setWord) && Holds(setWord) && HasBit(setWord, Controlword.NEW_SET_POINT)
      modifies bus`trace, bus`between, bus`words, bus.sim
      ensures bus.Valid() && old(bus.trace) < bus.trace && bus.words == old(bus.words) + [setWord]
      ensures if r.Ok? then Acknowledges(bus.trace[|bus.trace| - 1], CONTROLWORD, 0, setWord, 2, false)
              else r.error == AccessFailed && bus.trace[|bus.trace| - 1] == WriteLost(CONTROLWORD, 0, setWord)
      ensures TicksBetween(bus.trace, |old(bus.trace)|, |bus.trace| - 1)
      ensures bus.Closed() && InVelocityMode(old(bus.sim.View())) ==>
                r.Ok? && Follows(bus.sim.View(), old(bus.sim.View()).regs.targetVelocity)
    {
      r := WriteWord(bus, setWord);
      if bus.Closed() && InVelocityMode(old(bus.sim.View())) {
        var d := DriveSpec.Run(old(bus.sim.View()), bus.between);
        var e := bus.trace[|bus.trace| - 1];
        TicksKeepEnabled(old(bus.sim.View()), bus.between);
        WordReachesDrive(d, e, setWord);
        EdgeTakesVelocity(Keep(d, CONTROLWORD, 0, e.raw), setWord, e.at);
      }
    }

    method Release(clearWord: int, ghost velocity: int) returns (r: Result<(), Failure>)
      requires bus.Valid() && IsWord(clearWord) && Holds(clearWord) && !HasBit(clearWord, Controlword.NEW_SET_POINT)
      modifies bus`trace, bus`between, bus`words, bus.sim
      ensures bus.Valid() && old(bus.trace) < bus.trace && bus.words == old(bus.words) + [clearWord]
      ensures if r.Ok? then Acknowledges(bus.trace[|bus.trace| - 1], CONTROLWORD, 0, clearWord, 2, false)
              else r.error == AccessFailed && bus.trace[|bus.trace| - 1] == WriteLost(CONTROLWORD, 0, clearWord)
      ensures TicksBetween(bus.trace, |old(bus.trace)|, |bus.trace| - 1)
      ensures bus.Closed() && Follows(old(bus.sim.View()), velocity) ==>
                r.Ok? && Follows(bus.sim.View(), velocity) && !HoldsSetPoint(bus.sim.View())
    {
      r := WriteWord(bus, clearWord);
      if bus.Closed() && Follows(old(bus.sim.View()), velocity) {
        var d := DriveSpec.Run(old(bus.sim.View()), bus.between);
        var e := bus.trace[|bus.trace| - 1];
        TicksKeepFollowing(old(bus.sim.View()), bus.between, velocity);
        WordReachesDrive(d, e, clearWord);
        ReleaseKeepsFollowing(Keep(d, CONTROLWORD, 0, e.raw), velocity, clearWord, e.at);
      }
    }

    /** Both `stop_velocity_zero` and `stop`. */
    method Stop() returns (r: Result<(), Failure>)
      requires bus.Valid()
      modifies bus`trace, bus`between, bus`params, bus.sim
      ensures bus.Valid() && old(bus.trace) <= bus.trace && QuietFrom(bus.trace, |old(bus.trace)|)
      ensures bus.params == old(bus.params) + [Param(TARGET_VELOCITY, 0, 0)]
      ensures |old(bus.trace)| < |bus.trace|
      ensures if r.Ok?
              then Acknowledges(bus.trace[|bus.trace| - 1], 0x60FF, 0, 0, 4, true)
                   && NothingLost(bus.trace, |old(bus.trace)|)
              else r.error == AccessFailed && LostAccess(bus.trace)
      ensures bus.live ==> r.Ok?
      ensures bus.Closed() && InVelocityMode(old(bus.sim.View())) ==>
                InVelocityMode(bus.sim.View()) && Stands(bus.sim.View())
    {
      r := SetTargetVelocity(0);
    }

    /** HALT on or off, unless an abort is under way. */
    method Halt(enabled: bool) returns (r: Result<(), Failure>)
      requires bus.Valid()
      modifies bus`trace, bus`between, bus`words, bus.sim
      ensures bus.Valid() && old(bus.trace) <= bus.trace
      ensures bus.words == old(bus.words) ==> r.Ok? && watchesAbort && bus.trace == old(bus.trace) + [AbortPolled(true)]
      ensures bus.words != old(bus.words) && watchesAbort ==>
                |old(bus.trace)| < |bus.trace| && bus.trace[|old(bus.trace)|] == AbortPolled(false)
      ensures bus.words == old(bus.words) || bus.words == old(bus.words) + [if enabled then 0x010F else 0x000F]
      ensures bus.words != old(bus.words) ==>
                if r.Ok?
                then Acknowledges(bus.trace[|bus.trace| - 1], 0x6040, 0, if enabled then 0x010F else 0x000F, 2, false)
                else r.error == AccessFailed && LostAccess(bus.trace)
    {
      if watchesAbort {
        var aborted := bus.PollAbort();
        if aborted {
          return Ok(());
        }
      }
      var word := if enabled then Controlword.HaltWord() else Controlword.ENABLE_OPERATION;
      r := WriteQuietWord(bus, word);
    }
  }
}
