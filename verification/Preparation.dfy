/** Parameter writes and reads that leave a poised drive poised. */
module Preparation {
  import opened Prelude
  import opened Codec
  import opened DriveSpec
  import opened DriveControl
  import opened Access
  import opened Bus
  import opened Pursuit

  /** Write one parameter object; `target` is the move being prepared. */
  method WriteParameter(bus: RegisterBus, index: int, subindex: int, value: int, size: nat, signed: bool,
                        ghost target: int)
    returns (r: Result<(), Failure>)
    requires bus.Valid() && SupportedSize(size) && index !in {CONTROLWORD, POSITION_RANGE_LIMIT}
    modifies bus`trace, bus`between, bus`params, bus.sim
    ensures bus.Valid() && old(bus.trace) <= bus.trace
    ensures bus.params
            == old(bus.params) + (if InRange(value, size, signed) then [Param(index, subindex, value)] else [])
    ensures r.Ok? ==> InRange(value, size, signed) && |old(bus.trace)| < |bus.trace|
                      && Acknowledges(bus.trace[|bus.trace| - 1], index, subindex, value, size, signed)
                      && NoParamLost(bus.trace, |old(bus.trace)|)
    ensures r.Err? ==> if InRange(value, size, signed) then r.error == AccessFailed && |old(bus.trace)| < |bus.trace|
                            && bus.trace[|bus.trace| - 1] == WriteLost(index, subindex, value)
                       else r.error == ValueRefused && bus.trace == old(bus.trace)
    ensures bus.Closed() && Poised(old(bus.sim.View()), target) ==>
              && Poised(bus.sim.View(), target) && (r.Ok? <==> InRange(value, size, signed))
              && (r.Err? ==> r.error == ValueRefused)
              && (index != MODES_OF_OPERATION ==> bus.sim.View().mode == old(bus.sim.View()).mode)
              && (index == MODES_OF_OPERATION && size == 1 && 0 <= value < 128 ==> bus.sim.View().mode == value)
              && (index == TARGET_POSITION && size == 4 && signed && r.Ok? ==>
                    bus.sim.View().regs.targetPosition == value)
  {
    hide After, WordsOf, ParamsOf, Poised, Effect, PackInt;
    r := bus.Write(index, subindex, value, size, signed);
    if InRange(value, size, signed) {
      var arrived := bus.trace[..|bus.trace| - 1];
      assert old(bus.trace) <= arrived && forall i :: |old(bus.trace)| <= i < |arrived| ==> bus.trace[i] == arrived[i];
      if bus.Closed() && Poised(old(bus.sim.View()), target) {
        var e := bus.trace[|bus.trace| - 1];
        TicksKeepPoised(old(bus.sim.View()), bus.between, target);
        ParameterKeepsPoised(Run(old(bus.sim.View()), bus.between), e, index, subindex, value, size, signed, target);
      }
    }
  }

  /** Writing parameters fails by the loss of an access, or because one does not fit. */
  predicate WriteFails(trace: seq<Event>, fits: bool, failure: Failure) {
    (failure == AccessFailed && LostAccess(trace)) || (failure == ValueRefused && !fits)
  }

  // ------------------------------------------------------------ the mode display

  /** A mode display that shows another mode. */
  predicate OtherMode(e: Event, mode: int) {
    e.Got? && e.index == 0x6061 && e.subindex == 0 && e.value != mode
  }

  /** A wait for the mode display, which began at `start` and which the trace ends with: until the
      last event only other modes were read; then the mode was read, or the time had run out after
      another one, or the read was lost. */
  predicate ModeWait(trace: seq<Event>, start: nat, mode: int, timeout: int, r: Result<bool, Failure>) {
    && start + 1 < |trace| && Punctual(trace, start, timeout)
    && (forall i :: start < i < |trace| - 1 ==> trace[i].Env? || trace[i].Clock? || OtherMode(trace[i], mode))
    && var last := trace[|trace| - 1];
       if r.Err? then r.error == AccessFailed && last == ReadLost(0x6061, 0)
       else if r.value then last == Got(0x6061, 0, mode)
       else && last.Clock? && last.time >= trace[start].time + timeout && start + 2 < |trace|
            && OtherMode(trace[|trace| - 2], mode)
  }

  lemma ModeWaitOnlyReads(trace: seq<Event>, start: nat, mode: int, timeout: int, r: Result<bool, Failure>)
    requires ModeWait(trace, start, mode, timeout, r)
    ensures NoParamLost(trace, start)
  {
  }

  /** Such a wait began right after the acknowledged write of the mode. */
  predicate ModeChecked(from: nat, trace: seq<Event>, mode: int, timeout: int, shown: Result<bool, Failure>) {
    exists start: nat :: from < start <= |trace| && Acknowledges(trace[start - 1], 0x6060, 0, mode, 1, false)
                         && ModeWait(trace, start, mode, timeout, shown)
  }

  /** How a mode is ensured: its write was lost; or it was written, and nothing waits for it; or
      the wait for it decides, which counts only when it is to be verified. */
  predicate ModeEnsured(from: nat, trace: seq<Event>, mode: int, timeout: int, shown: Option<Result<bool, Failure>>,
                        waits: bool, verify: bool, r: Result<(), Failure>) {
    match shown
    case None =>
      && from < |trace|
      && if r.Ok? then !waits && Acknowledges(trace[|trace| - 1], 0x6060, 0, mode, 1, false)
         else r.error == AccessFailed && trace[|trace| - 1] == WriteLost(0x6060, 0, mode)
    case Some(seen) =>
      && waits && ModeChecked(from, trace, mode, timeout, seen)
      && r == if !verify then Ok(())
              else if seen.Err? then Err(seen.error)
              else if seen.value then Ok(()) else Err(ModeNotConfirmed)
  }

  /** Whatever still waits: only other modes were read, each before the deadline. */
  predicate ModePending(trace: seq<Event>, start: nat, mode: int, deadline: int) {
    && start < |trace| && Early(trace, start, deadline)
    && forall i :: start < i < |trace| ==> trace[i].Env? || trace[i].Clock? || OtherMode(trace[i], mode)
  }

  lemma ModeIsShown(soFar: seq<Event>, between: seq<Step>, trace: seq<Event>, start: nat, mode: int, timeout: int,
                    r: Result<bool, Failure>)
    requires start < |soFar| && soFar[start].Clock? && ModePending(soFar, start, mode, soFar[start].time + timeout)
    requires trace != [] && trace[..|trace| - 1] == soFar + EnvEvents(between)
    requires trace[|trace| - 1] == if r.Ok? then Got(0x6061, 0, mode) else ReadLost(0x6061, 0)
    requires if r.Ok? then r.value else r.error == AccessFailed
    ensures ModeWait(trace, start, mode, timeout, r)
  {
    forall i | start <= i < |trace| - 1 ensures trace[i] == (soFar + EnvEvents(between))[i] {
    }
  }

  lemma ModeIsPending(soFar: seq<Event>, between: seq<Step>, other: Event, t: int, trace: seq<Event>, start: nat,
                      mode: int, timeout: int)
    requires start < |soFar| && soFar[start].Clock? && ModePending(soFar, start, mode, soFar[start].time + timeout)
    requires OtherMode(other, mode) && trace == soFar + EnvEvents(between) + [other] + [Clock(t)]
    ensures t < soFar[start].time + timeout ==> ModePending(trace, start, mode, soFar[start].time + timeout)
    ensures t >= soFar[start].time + timeout ==> ModeWait(trace, start, mode, timeout, Ok(false))
  {
    var polled := soFar + EnvEvents(between);
    forall i | start <= i < |polled| ensures trace[i] == polled[i] {
    }
    assert trace[|polled|] == other && trace[|polled| + 1] == Clock(t);
  }

  method ReadDisplay(bus: RegisterBus) returns (r: Result<int, Failure>, ghost steps: seq<Step>)
    requires bus.Valid()
    modifies bus`trace, bus`between, bus.sim
    ensures bus.Valid()
    ensures bus.trace == old(bus.trace) + EnvEvents(steps) + [if r.Ok? then Got(0x6061, 0, r.value)
                                                              else ReadLost(0x6061, 0)]
    ensures r.Err? ==> r.error == AccessFailed
    ensures bus.Closed() ==> EnvSteps(steps, false) && bus.sim.View() == Run(old(bus.sim.View()), steps)
    ensures bus.Closed() && 0 <= old(bus.sim.View()).display < 128 ==> r == Ok(old(bus.sim.View()).display)
  {
    r := bus.Read(MODES_OF_OPERATION_DISPLAY, 0, 1, true);
    steps := bus.between;
    if bus.Closed() {
      TicksKeepControl(old(bus.sim.View()), steps);
      DisplayIsSeen(bus.sim.View());
    }
  }

  /** One look at the mode display; only one that shows another mode is followed by a look at the
      clock. `start` is where the wait began. */
  method LookAtMode(bus: RegisterBus, mode: int, deadline: int, ghost timeout: int, ghost start: nat)
    returns (verdict: Option<Result<bool, Failure>>, ghost steps: seq<Step>)
    requires bus.Valid() && 0 <= mode < 128 && start < |bus.trace| && bus.trace[start].Clock?
    requires deadline == bus.trace[start].time + timeout && ModePending(bus.trace, start, mode, deadline)
    modifies bus`trace, bus`between, bus`now, bus.sim
    ensures bus.Valid() && old(bus.trace) < bus.trace && bus.now >= old(bus.now)
    ensures LooksWithin(bus.trace, |old(bus.trace)|, old(bus.now), bus.now)
    ensures OneLook(bus.trace, |old(bus.trace)|, |bus.trace| - 1)
    ensures bus.trace[start] == old(bus.trace)[start]
    ensures verdict.Some? ==> ModeWait(bus.trace, start, mode, timeout, verdict.value)
    ensures verdict.None? ==> ModePending(bus.trace, start, mode, deadline) && bus.now < deadline
    ensures bus.Closed() ==> EnvSteps(steps, false) && bus.sim.View() == Run(old(bus.sim.View()), steps)
    ensures bus.Closed() && old(bus.sim.View()).display == mode ==> verdict == Some(Ok(true))
  {
    hide After, WordsOf, ParamsOf;
    var display;
    display, steps := ReadDisplay(bus);
    assert bus.trace[start] == old(bus.trace)[start];
    if display.Err? || display.value == mode {
      verdict := Some(if display.Err? then Err(display.error) else Ok(true));
      ModeIsShown(old(bus.trace), steps, bus.trace, start, mode, timeout, verdict.value);
      return;
    }
    ghost var other := Got(MODES_OF_OPERATION_DISPLAY, 0, display.value);
    var t := bus.Monotonic();
    ModeIsPending(old(bus.trace), steps, other, t, bus.trace, start, mode, timeout);
    verdict := if t >= deadline then Some(Ok(false)) else None;
  }

  /** Wait until the mode display shows this mode. On the simulator, alone, only ticks happen
      meanwhile, and a mode that is shown is seen by the first read. */
  method AwaitMode(bus: RegisterBus, mode: int, timeout: int, pollInterval: nat)
    returns (r: Result<bool, Failure>, ghost steps: seq<Step>)
    requires bus.Valid() && 0 <= mode < 128
    modifies bus`trace, bus`between, bus`now, bus.sim
    ensures bus.Valid() && old(bus.trace) < bus.trace && bus.now >= old(bus.now)
    ensures ModeWait(bus.trace, |old(bus.trace)|, mode, timeout, r)
    ensures Paced(bus.trace, |old(bus.trace)|, pollInterval)
    ensures bus.Closed() ==> EnvSteps(steps, false) && bus.sim.View() == Run(old(bus.sim.View()), steps)
    ensures bus.Closed() && old(bus.sim.View()).display == mode ==> r == Ok(true)
  {
    steps := [];
    var started := bus.Monotonic();
    var deadline := started + timeout;
    while true
      invariant bus.Valid() && old(bus.trace) < bus.trace && bus.now >= old(bus.now)
      invariant bus.trace[|old(bus.trace)|] == Clock(started)
      invariant ModePending(bus.trace, |old(bus.trace)|, mode, deadline)
      invariant bus.Closed() ==> EnvSteps(steps, false) && bus.sim.View() == Run(old(bus.sim.View()), steps)
      invariant Rested(bus.trace, |old(bus.trace)|, pollInterval, bus.now)
      decreases deadline - bus.now
    {
      var verdict;
      ghost var between;
      ghost var soFar, was := bus.trace, bus.now;
      verdict, between := LookAtMode(bus, mode, deadline, timeout, |old(bus.trace)|);
      LookIsPaced(soFar, bus.trace, |old(bus.trace)|, pollInterval, |bus.trace| - 1, was, bus.now);
      if bus.Closed() {
        RunSplit(old(bus.sim.View()), steps, between);
        TicksKeepControl(old(bus.sim.View()), steps);
        steps := steps + between;
      }
      if verdict.Some? {
        return verdict.value, steps;
      }
      bus.Sleep(pollInterval);
    }
  }

  /** The barrier cycle before a start: one round trip and one drive cycle. */
  method Barrier(bus: RegisterBus, cycleDelay: nat, ghost target: int) returns (r: Result<(), Failure>)
    requires bus.Valid()
    modifies bus`trace, bus`between, bus`now, bus.sim
    ensures bus.Valid() && old(bus.trace) < bus.trace
    ensures NoParamLost(bus.trace, |old(bus.trace)|)
    ensures r.Ok? ==> bus.trace[|bus.trace| - 1].Got? && bus.trace[|bus.trace| - 1].index == STATUSWORD
    ensures r.Err? ==> r.error == AccessFailed && bus.trace[|bus.trace| - 1] == ReadLost(STATUSWORD, 0)
    ensures bus.live ==> r.Ok?
    ensures r.Ok? ==> bus.now >= old(bus.now) + cycleDelay
    ensures bus.Closed() && Poised(old(bus.sim.View()), target) ==>
              && Poised(bus.sim.View(), target) && bus.sim.View().mode == old(bus.sim.View()).mode
              && bus.sim.View().regs.targetPosition == old(bus.sim.View()).regs.targetPosition
  {
    hide After, WordsOf, ParamsOf;
    var sw := bus.Read(STATUSWORD, 0, 2, false);
    if bus.live {
      StatuswordIsSeen(bus.sim.View());
    }
    if bus.Closed() && Poised(old(bus.sim.View()), target) {
      TicksKeepPoised(old(bus.sim.View()), bus.between, target);
    }
    if sw.Err? {
      return Err(sw.error);
    }
    bus.Sleep(cycleDelay);
    return Ok(());
  }

  /** The write of a parameter that is configured. */
  function IfSet(index: int, subindex: int, value: Option<int>): seq<Param> {
    if value.Some? then [Param(index, subindex, value.value)] else []
  }

  predicate Fits(value: Option<int>) {
    value.Some? ==> InRange(value.value, 4, false)
  }

  /** The argument of a call, or else what is configured. */
  function Either(argument: Option<int>, configured: Option<int>): Option<int> {
    if argument.Some? then argument else configured
  }

  /** The three parameters of a position profile, each of which may be left alone. */
  datatype Profile = Profile(velocity: Option<int>, acceleration: Option<int>, deceleration: Option<int>) {
    predicate AllFit() {
      Fits(velocity) && Fits(acceleration) && Fits(deceleration)
    }

    function Writes(): seq<Param> {
      IfSet(0x6081, 0, velocity) + IfSet(0x6083, 0, acceleration) + IfSet(0x6084, 0, deceleration)
    }

    /** These arguments, completed from what is configured. */
    function Over(configured: Profile): Profile {
      Profile(Either(velocity, configured.velocity), Either(acceleration, configured.acceleration),
              Either(deceleration, configured.deceleration))
    }
  }

  /** The one write for a parameter given in two places, of which the first goes before the second. */
  function OneOf(index: int, subindex: int, first: Option<int>, second: Option<int>): seq<Param> {
    match (first, second)
    case (Some(value), _) => [Param(index, subindex, value)]
    case (None, Some(value)) => [Param(index, subindex, value)]
    case (None, None) => []
  }

  /** Every parameter is written as the call gives it, or else as it is configured, or not at all. */
  lemma ArgumentsGoFirst(a: Profile, c: Profile)
    ensures a.Over(c).Writes()
            == OneOf(0x6081, 0, a.velocity, c.velocity) + OneOf(0x6083, 0, a.acceleration, c.acceleration)
               + OneOf(0x6084, 0, a.deceleration, c.deceleration)
  {
  }

  /** A call without arguments. */
  const DEFAULT_PROFILE: Profile := Profile(None, None, None)

  /** What is written before a move starts: mode, profile, target, in this order. */
  function MoveWrites(profile: Profile, target: int): seq<Param> {
    [Param(0x6060, 0, 1)] + profile.Writes() + [Param(0x607A, 0, target)]
  }

  /** How the preparation of a motion fails: by the loss of an access, because a parameter does not
      fit, or because the mode, which is to be verified, never showed in time. */
  predicate PreparationFails(from: nat, trace: seq<Event>, fits: bool, verify: bool, mode: int, modeTimeout: int,
                             failure: Failure) {
    || WriteFails(trace, fits, failure)
    || (failure == ModeNotConfirmed && verify && ModeChecked(from, trace, mode, modeTimeout, Ok(false)))
  }

  method WriteIfSet(bus: RegisterBus, index: int, value: Option<int>, ghost target: int)
    returns (r: Result<(), Failure>)
    requires bus.Valid() && index in {PROFILE_VELOCITY, PROFILE_ACCELERATION, PROFILE_DECELERATION}
    modifies bus`trace, bus`between, bus`params, bus.sim
    ensures bus.Valid() && old(bus.trace) <= bus.trace
    ensures r.Ok? ==> NoParamLost(bus.trace, |old(bus.trace)|)
    ensures r.Ok? ==> bus.params == old(bus.params) + IfSet(index, 0, value) && Fits(value)
    ensures r.Err? ==> WriteFails(bus.trace, Fits(value), r.error)
    ensures bus.Closed() && Poised(old(bus.sim.View()), target) ==>
              && Poised(bus.sim.View(), target) && bus.sim.View().mode == old(bus.sim.View()).mode
              && (r.Ok? <==> Fits(value)) && (r.Err? ==> r.error == ValueRefused)
  {
    if value.None? {
      return Ok(());
    }
    r := WriteParameter(bus, index, 0, value.value, 4, false, target);
  }

  /** Write what the profile sets, in order, up to the first that is refused. */
  method WriteProfile(bus: RegisterBus, profile: Profile, ghost target: int) returns (r: Result<(), Failure>)
    requires bus.Valid()
    modifies bus`trace, bus`between, bus`params, bus.sim
    ensures bus.Valid() && old(bus.trace) <= bus.trace
    ensures r.Ok? ==> NoParamLost(bus.trace, |old(bus.trace)|)
    ensures r.Ok? ==> bus.params == old(bus.params) + profile.Writes() && profile.AllFit()
    ensures r.Err? ==> WriteFails(bus.trace, profile.AllFit(), r.error)
    ensures bus.Closed() && Poised(old(bus.sim.View()), target) ==>
              && Poised(bus.sim.View(), target) && bus.sim.View().mode == old(bus.sim.View()).mode
              && (r.Ok? <==> profile.AllFit()) && (r.Err? ==> r.error == ValueRefused)
  {
    hide After, WordsOf, ParamsOf;
    var _ :- WriteIfSet(bus, PROFILE_VELOCITY, profile.velocity, target);
    ghost var first := bus.trace;
    var _ :- WriteIfSet(bus, PROFILE_ACCELERATION, profile.acceleration, target);
    ghost var second := bus.trace;
    var _ :- WriteIfSet(bus, PROFILE_DECELERATION, profile.deceleration, target);
    ParamsJoin(old(bus.trace), first, second);
    ParamsJoin(old(bus.trace), second, bus.trace);
    return Ok(());
  }

  lemma NoArguments(configured: Profile)
    ensures DEFAULT_PROFILE.Over(configured) == configured
  {
  }

  /** The last writes before the rising edge: the target, then the barrier cycle. */
  method WriteTarget(bus: RegisterBus, target: int, cycleDelay: nat) returns (r: Result<(), Failure>)
    requires bus.Valid()
    modifies bus`trace, bus`between, bus`params, bus`now, bus.sim
    ensures bus.Valid() && old(bus.trace) <= bus.trace
    ensures r.Ok? ==> NoParamLost(bus.trace, |old(bus.trace)|) && bus.now >= old(bus.now) + cycleDelay
    ensures r.Ok? ==>
              && IsInt32(target) && bus.params == old(bus.params) + [Param(TARGET_POSITION, 0, target)]
              && |old(bus.trace)| < |bus.trace| && GotStatus(bus.trace[|bus.trace| - 1])
    ensures r.Err? ==> WriteFails(bus.trace, IsInt32(target), r.error)
    ensures bus.Closed() && Poised(old(bus.sim.View()), target) ==>
              && r.Ok? && Poised(bus.sim.View(), target) && bus.sim.View().mode == old(bus.sim.View()).mode
              && bus.sim.View().regs.targetPosition == target
  {
    Int32Fits(target);
    var _ :- WriteParameter(bus, TARGET_POSITION, 0, target, 4, true, target);
    ghost var written := bus.trace;
    r := Barrier(bus, cycleDelay, target);
    ParamsJoin(old(bus.trace), written, bus.trace);
  }

  /** The mode display reads back modulo 256, and not at all when that is no signed byte. */
  lemma DisplayIsSeen(d: Drive)
    ensures var byte := d.display % 256;
            Seen(d, MODES_OF_OPERATION_DISPLAY, 0, 1, true) == if byte < 128 then Ok(byte) else Err(AccessFailed)
  {
    Pow256Values();
    PackThenUnpack(d.display % 256, 1, true, Little);
    if d.display % 256 < 128 {
      var raw := ReadObject(d, MODES_OF_OPERATION_DISPLAY, 0, 1).value;
      assert FitTo(raw, 1) == raw;
    }
  }
}
