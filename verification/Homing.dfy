/** The simulated drive under a homing run: from the start edge to the reference position. */
module Seeking {
  import opened Prelude
  import opened Bits
  import opened DriveSpec
  import opened DriveInvariants
  import opened DriveControl
  import opened Bus
  import opened Pursuit
  import Controlword
  import Statusword

  /** Homed since the start edge, and still at zero. */
  predicate AtHome(d: Drive) {
    d.home.homed && !d.flags.homing && d.axis.position == 0
  }

  predicate OnTheWay(d: Drive) {
    !d.home.homed && d.flags.homing && 0 <= d.home.duration <= 1_500_000
  }

  /** A homing run is under way or has just ended, without error. */
  predicate Seeks(d: Drive) {
    && d.mode == MODE_HOMING && d.state == OperationEnabled && !d.emergency && !d.fault
    && d.limits.low <= 0 <= d.limits.high && !d.home.error
    && (AtHome(d) || OnTheWay(d))
  }

  /** The rising edge forgets an earlier homing before anybody can look. */
  lemma EdgeStartsSeeking(d: Drive, cw: int, now: int)
    requires Poised(d, 0) && d.mode == MODE_HOMING
    requires IsWord(cw) && Holds(cw) && HasBit(cw, Controlword.NEW_SET_POINT)
    ensures Seeks(ApplyControlword(d, cw, now)) && OnTheWay(ApplyControlword(d, cw, now))
    ensures ApplyControlword(d, cw, now).home.startedAt == now
  {
    HeldCommand(cw);
  }

  lemma ReleaseKeepsSeeking(d: Drive, cw: int, now: int)
    requires Seeks(d) && IsWord(cw) && Holds(cw) && !HasBit(cw, Controlword.NEW_SET_POINT)
    ensures Seeks(ApplyControlword(d, cw, now))
  {
    HeldCommand(cw);
  }

  /** A tick moves toward zero, and ends the run as soon as its time is over. */
  lemma TickKeepsSeeking(d: Drive, now: int)
    requires Seeks(d)
    ensures Seeks(Tick(d, now)) && (AtHome(d) ==> AtHome(Tick(d, now)))
    ensures Tick(d, now).home.startedAt == d.home.startedAt
    ensures now - d.home.startedAt >= 1_500_000 ==> AtHome(Tick(d, now))
  {
  }

  lemma {:induction false} TicksKeepSeeking(d: Drive, steps: seq<Step>)
    requires EnvSteps(steps, false) && Seeks(d)
    ensures Seeks(Run(d, steps)) && (AtHome(d) ==> AtHome(Run(d, steps)))
    decreases |steps|
  {
    if steps != [] {
      assert EnvStep(steps[0], false);
      TickKeepsSeeking(d, steps[0].now);
      TicksKeepSeeking(Apply(d, steps[0]), steps[1..]);
    }
  }

  /** A tick ends the run exactly when its time, which was fixed at the start edge, is over. */
  lemma TickEndsHoming(d: Drive, now: int)
    requires Seeks(d) && OnTheWay(d)
    ensures AtHome(Tick(d, now)) <==> now - d.home.startedAt >= d.home.duration
    ensures OnTheWay(Tick(d, now)) <==> now - d.home.startedAt < d.home.duration
    ensures Tick(d, now).home.duration == d.home.duration
  {
  }

  /** The edge fixes the time by the way to zero and the profile velocity. */
  lemma EdgeFixesTime(d: Drive, cw: int, now: int)
    requires Poised(d, 0) && d.mode == MODE_HOMING
    requires IsWord(cw) && Holds(cw) && HasBit(cw, Controlword.NEW_SET_POINT)
    ensures ApplyControlword(d, cw, now).home.duration
            == HomingTime(d.axis.position, CruiseSpeed(d.regs.profileVelocity))
  {
    HeldCommand(cw);
  }

  /** Every homing run ends: one turn of the engine at least 1.5 s after the start is enough,
      whatever the turns before it did, and the drive stays home from then on. */
  lemma {:induction false} HomingEnds(d: Drive, steps: seq<Step>, late: nat)
    requires EnvSteps(steps, false) && Seeks(d)
    requires late < |steps| && steps[late].now - d.home.startedAt >= 1_500_000
    ensures AtHome(Run(d, steps)) && Seeks(Run(d, steps))
    decreases |steps|
  {
    assert EnvStep(steps[0], false);
    TickKeepsSeeking(d, steps[0].now);
    if late == 0 {
      TicksKeepSeeking(Apply(d, steps[0]), steps[1..]);
    } else {
      HomingEnds(Apply(d, steps[0]), steps[1..], late - 1);
    }
  }

  /** Bit 12 of a seeking drive means home, and bit 13 stays clear. */
  lemma SeekingReports(d: Drive)
    requires Seeks(d)
    ensures Seen(d, STATUSWORD, 0, 2, false) == Ok(MakeStatusword(d))
    ensures HasBit(MakeStatusword(d), Statusword.OP_MODE_SPECIFIC) <==> AtHome(d)
    ensures !HasBit(MakeStatusword(d), Statusword.BIT_13)
  {
    StatuswordBits(d);
    StatuswordIsSeen(d);
  }

  /** What a poll of a seeking drive sees: bit 12 means home, and bit 13 stays clear. */
  lemma SeekingIsPolled(d: Drive, steps: seq<Step>)
    requires EnvSteps(steps, false) && Seeks(d)
    ensures var d', seen := Run(d, steps), Seen(Run(d, steps), STATUSWORD, 0, 2, false);
            && Seeks(d') && seen.Ok? && !HasBit(seen.value, Statusword.BIT_13)
            && (HasBit(seen.value, Statusword.OP_MODE_SPECIFIC) ==> AtHome(d'))
  {
    TicksKeepSeeking(d, steps);
    SeekingReports(Run(d, steps));
  }
}

/** Homing: src/dryve_d1/motion/homing.py. */
module Homing {
  import opened Prelude
  import opened Codec
  import opened Bits
  import opened DriveSpec
  import opened DriveControl
  import opened Access
  import opened Bus
  import opened Preparation
  import opened Pursuit
  import opened Seeking
  import Controlword
  import Statusword

  const HOMING_SPEEDS: int := 0x6099
  const HOMING_ACCELERATION: int := 0x609A

  datatype HomingConfig = HomingConfig(
    homingMethod: int,
    skipMethodWrite: bool,
    speedSearch: Option<int>,
    speedSwitch: Option<int>,
    acceleration: Option<int>,
    pollInterval: nat,
    timeout: int,
    cycleDelay: nat,
    verifyMode: bool,
    modeSetTimeout: int
  ) {
    /** Whether every configured parameter fits its unsigned register. */
    predicate AllFit() {
      Fits(speedSearch) && Fits(speedSwitch) && Fits(acceleration)
    }

    /** The parameter writes of this configuration, in order. */
    function Writes(): seq<Param> {
      (if skipMethodWrite then [] else [Param(0x6098, 0, homingMethod % 256)]) + Ramps()
    }

    function Ramps(): seq<Param> {
      IfSet(0x6099, 1, speedSearch) + IfSet(0x6099, 2, speedSwitch) + IfSet(0x609A, 0, acceleration)
    }

    /** This configuration with the arguments of a call in its place. */
    function With(a: Arguments): HomingConfig {
      this.(homingMethod := if a.homingMethod.Some? then a.homingMethod.value else homingMethod,
            speedSearch := Either(a.speedSearch, speedSearch), speedSwitch := Either(a.speedSwitch, speedSwitch),
            acceleration := Either(a.acceleration, acceleration))
    }
  }

  datatype Arguments = Arguments(
    homingMethod: Option<int>,
    speedSearch: Option<int>,
    speedSwitch: Option<int>,
    acceleration: Option<int>
  )

  /** Every parameter is written as the call gives it, or else as it is configured, or not at all;
      a method that is skipped is skipped also when the call gives one. */
  lemma ArgumentsGoFirst(c: HomingConfig, a: Arguments)
    ensures c.With(a).Writes()
            == (if c.skipMethodWrite then []
                else [Param(0x6098, 0, (if a.homingMethod.Some? then a.homingMethod.value else c.homingMethod) % 256)])
               + (OneOf(0x6099, 1, a.speedSearch, c.speedSearch) + OneOf(0x6099, 2, a.speedSwitch, c.speedSwitch)
                  + OneOf(0x609A, 0, a.acceleration, c.acceleration))
  {
  }

  /** A call without arguments. */
  const AS_CONFIGURED: Arguments := Arguments(None, None, None, None)

  datatype HomingResult = HomingResult(attained: bool, error: bool, statusword: int)

  /** The result is what the last statusword said, read after the given point of the trace. */
  predicate ReadAfter(trace: seq<Event>, from: nat, result: HomingResult) {
    && from < |trace| && trace[|trace| - 1] == Got(STATUSWORD, 0, result.statusword)
    && OnlyPolling(trace, from)
    && result.attained == HasBit(result.statusword, Statusword.OP_MODE_SPECIFIC)
    && result.error == HasBit(result.statusword, Statusword.BIT_13)
    && (result.attained || result.error)
  }

  /** Neither bit 12 nor bit 13. */
  predicate StillHoming(sw: int) {
    !HasBit(sw, 0x1000) && !HasBit(sw, 0x2000)
  }

  /** The last round, from the abort poll at `a`: the abort; a statusword with bit 12 or bit 13, or
      with neither before a look at the clock at or after the deadline; or a read that was lost. */
  predicate RoundEnds(trace: seq<Event>, a: nat, deadline: int, r: Result<HomingResult, Failure>) {
    && a < |trace| && trace[a].AbortPolled?
    && if trace[a].requested then a == |trace| - 1 && r == Err(MotionAborted)
       else
         && a < |trace| - 1
         && var last := trace[|trace| - 1];
            match r
            case Ok(result) =>
              && TicksBetween(trace, a + 1, |trace| - 1) && last == Got(STATUSWORD, 0, result.statusword)
              && !StillHoming(result.statusword) && result.attained == HasBit(result.statusword, 0x1000)
              && result.error == HasBit(result.statusword, 0x2000)
            case Err(HomingTimeout) =>
              && a < |trace| - 2 && TicksBetween(trace, a + 1, |trace| - 2) && GotStatus(trace[|trace| - 2])
              && StillHoming(trace[|trace| - 2].value) && last.Clock? && last.time >= deadline
            case Err(AccessFailed) =>
              TicksBetween(trace, a + 1, |trace| - 1) && last == ReadLost(STATUSWORD, 0)
            case _ => false
  }

  /** The whole completion wait, which began at `start`, whose last round began at `a`, and which
      the trace ends with. */
  predicate WaitResult(trace: seq<Event>, start: nat, a: nat, timeout: int, r: Result<HomingResult, Failure>) {
    && start < a < |trace| && Decided(trace, start, start + 1, a, timeout, StillHoming)
    && RoundEnds(trace, a, trace[start].time + timeout, r)
  }

  /** A round that polls the statusword and then looks at the clock. */
  lemma RoundPends(before: seq<Event>, polled: seq<Event>, t: int)
    requires OnePoll(before + [AbortPolled(false)], polled)
    requires GotStatus(polled[|polled| - 1]) && StillHoming(polled[|polled| - 1].value)
    ensures var trace := polled + [Clock(t)];
            && trace[|before|] == AbortPolled(false) && OneLook(trace, |before|, |trace| - 1)
            && Undecided(trace, |before|, |trace|, StillHoming) && AbortFirst(trace, |before|, |trace|)
            && (forall deadline :: t >= deadline ==> RoundEnds(trace, |before|, deadline, Err(HomingTimeout)))
  {
    var trace := polled + [Clock(t)];
    var begun := before + [AbortPolled(false)];
    assert polled[|before|] == begun[|before|];
    assert TicksBetween(trace, |before| + 1, |trace| - 2);
    assert trace[|before|] == AbortPolled(false) && NothingBetween(trace, |before| + 1, |trace| - 2);
  }

  /** A round that ends with its poll. */
  lemma RoundPolls(before: seq<Event>, polled: seq<Event>)
    requires OnePoll(before + [AbortPolled(false)], polled)
    ensures polled[|before|] == AbortPolled(false) && OneLook(polled, |before|, |polled| - 1)
    ensures |before| < |polled| - 1 && TicksBetween(polled, |before| + 1, |polled| - 1)
  {
    var begun := before + [AbortPolled(false)];
    assert polled[|before|] == begun[|before|];
  }

  /** Start word at `edge`, release at `release`, both acknowledged. */
  predicate Pulsed(trace: seq<Event>, from: nat, edge: nat, release: nat) {
    && from <= edge < release < |trace|
    && Acknowledges(trace[edge], CONTROLWORD, 0, 0x1F, 2, false)
    && Acknowledges(trace[release], CONTROLWORD, 0, 0x0F, 2, false)
    && (forall i :: edge < i < release ==> Polling(trace[i])) && AfterBarrier(trace, from, edge)
  }

  class Homing {
    const bus: RegisterBus
    const cfg: HomingConfig

    constructor (bus: RegisterBus, cfg: HomingConfig)
      ensures this.bus == bus && this.cfg == cfg
    {
      this.bus, this.cfg := bus, cfg;
    }

    /** With verification on, a read of the display that fails makes the call fail. */
    method EnsureMode() returns (r: Result<(), Failure>, ghost shown: Option<Result<bool, Failure>>)
      requires bus.Valid()
      modifies bus`trace, bus`between, bus`params, bus`now, bus.sim
      ensures bus.Valid() && old(bus.trace) <= bus.trace
      ensures bus.now >= old(bus.now)
      ensures r.Ok? ==> NoParamLost(bus.trace, |old(bus.trace)|)
      ensures bus.params == old(bus.params) + [Param(0x6060, 0, 6)]
      ensures ModeEnsured(|old(bus.trace)|, bus.trace, 6, cfg.modeSetTimeout, shown,
                          cfg.verifyMode, cfg.verifyMode, r)
      ensures bus.Closed() && Poised(old(bus.sim.View()), 0) ==>
                r.Ok? && Poised(bus.sim.View(), 0) && bus.sim.View().mode == MODE_HOMING
    {
      ByteFits(MODE_HOMING);
      var written := WriteParameter(bus, MODES_OF_OPERATION, 0, MODE_HOMING, 1, false, 0);
      if written.Err? {
        return written, None;
      }
      ghost var from, chosen := |bus.trace|, bus.trace;
      if !cfg.verifyMode {
        return Ok(()), None;
      }
      ghost var ready, steps := bus.sim.View(), [];
      var seen;
      seen, steps := AwaitMode(bus, MODE_HOMING, cfg.modeSetTimeout, cfg.pollInterval);
      if bus.Closed() && Poised(old(bus.sim.View()), 0) {
        TicksKeepPoised(ready, steps, 0);
      }
      ModeWaitOnlyReads(bus.trace, from, MODE_HOMING, cfg.modeSetTimeout, seen);
      ParamsJoin(old(bus.trace), chosen, bus.trace);
      shown := Some(seen);
      assert Acknowledges(bus.trace[from - 1], 0x6060, 0, MODE_HOMING, 1, false);
      assert ModeChecked(|old(bus.trace)|, bus.trace, MODE_HOMING, cfg.modeSetTimeout, seen);
      if seen.Err? {
        return Err(seen.error), shown;
      }
      return if seen.value then Ok(()) else Err(ModeNotConfirmed), shown;
    }

    method ConfigureOne(index: int, subindex: int, value: Option<int>) returns (r: Result<(), Failure>)
      requires bus.Valid() && index in {HOMING_SPEEDS, HOMING_ACCELERATION}
      modifies bus`trace, bus`between, bus`params, bus.sim
      ensures bus.Valid() && old(bus.trace) <= bus.trace
      ensures r.Ok? ==> NoParamLost(bus.trace, |old(bus.trace)|)
      ensures r.Ok? ==> bus.params == old(bus.params) + IfSet(index, subindex, value) && Fits(value)
      ensures r.Err? ==> WriteFails(bus.trace, Fits(value), r.error)
      ensures bus.Closed() && Poised(old(bus.sim.View()), 0) ==>
                && Poised(bus.sim.View(), 0) && bus.sim.View().mode == old(bus.sim.View()).mode
                && (r.Ok? <==> Fits(value)) && (r.Err? ==> r.error == ValueRefused)
    {
      if value.None? {
        return Ok(());
      }
      r := WriteParameter(bus, index, subindex, value.value, 4, false, 0);
    }

    /** Arguments go before the configuration. */
    method Configure(arguments: Arguments) returns (r: Result<(), Failure>)
      requires bus.Valid()
      modifies bus`trace, bus`between, bus`params, bus.sim
      ensures bus.Valid() && old(bus.trace) <= bus.trace
      ensures r.Ok? ==> NoParamLost(bus.trace, |old(bus.trace)|)
      ensures r.Ok? ==> bus.params == old(bus.params) + cfg.With(arguments).Writes() && cfg.With(arguments).AllFit()
      ensures r.Err? ==> WriteFails(bus.trace, cfg.With(arguments).AllFit(), r.error)
      ensures bus.Closed() && Poised(old(bus.sim.View()), 0) ==>
                && Poised(bus.sim.View(), 0) && bus.sim.View().mode == old(bus.sim.View()).mode
                && (r.Ok? <==> cfg.With(arguments).AllFit()) && (r.Err? ==> r.error == ValueRefused)
    {
      var effective := cfg.With(arguments);
      var _ :- WriteMethod(effective);
      ghost var chosen := bus.trace;
      r := WriteRamps(effective);
      if r.Ok? {
        ParamsJoin(old(bus.trace), chosen, bus.trace);
      }
    }

    method WriteRamps(effective: HomingConfig) returns (r: Result<(), Failure>)
      requires bus.Valid()
      modifies bus`trace, bus`between, bus`params, bus.sim
      ensures bus.Valid() && old(bus.trace) <= bus.trace
      ensures r.Ok? ==> NoParamLost(bus.trace, |old(bus.trace)|)
      ensures r.Ok? ==> bus.params == old(bus.params) + effective.Ramps() && effective.AllFit()
      ensures r.Err? ==> WriteFails(bus.trace, effective.AllFit(), r.error)
      ensures bus.Closed() && Poised(old(bus.sim.View()), 0) ==>
                && Poised(bus.sim.View(), 0) && bus.sim.View().mode == old(bus.sim.View()).mode
                && (r.Ok? <==> effective.AllFit()) && (r.Err? ==> r.error == ValueRefused)
    {
      var _ :- ConfigureOne(HOMING_SPEEDS, 1, effective.speedSearch);
      ghost var first := bus.trace;
      var _ :- ConfigureOne(HOMING_SPEEDS, 2, effective.speedSwitch);
      ghost var second := bus.trace;
      var _ :- ConfigureOne(HOMING_ACCELERATION, 0, effective.acceleration);
      ParamsJoin(old(bus.trace), first, second);
      ParamsJoin(old(bus.trace), second, bus.trace);
      return Ok(());
    }

    /** The homing method is read-only on some drives, whose configuration then skips it. */
    method WriteMethod(effective: HomingConfig) returns (r: Result<(), Failure>)
      requires bus.Valid()
      modifies bus`trace, bus`between, bus`params, bus.sim
      ensures bus.Valid() && old(bus.trace) <= bus.trace
      ensures r.Ok? ==> NoParamLost(bus.trace, |old(bus.trace)|)
      ensures r.Ok? ==> bus.params == old(bus.params) + (if effective.skipMethodWrite then []
                                                         else [Param(0x6098, 0, effective.homingMethod % 256)])
      ensures r.Err? ==> r.error == AccessFailed && LostAccess(bus.trace)
      ensures bus.Closed() && Poised(old(bus.sim.View()), 0) ==>
                r.Ok? && Poised(bus.sim.View(), 0) && bus.sim.View().mode == old(bus.sim.View()).mode
    {
      if effective.skipMethodWrite {
        return Ok(());
      }
      ByteFits(effective.homingMethod % 256);
      r := WriteParameter(bus, HOMING_METHOD, 0, effective.homingMethod % 256, 1, false, 0);
    }

    method RaiseStart(setWord: int) returns (r: Result<(), Failure>)
      requires bus.Valid() && IsWord(setWord) && Holds(setWord) && HasBit(setWord, Controlword.NEW_SET_POINT)
      modifies bus`trace, bus`between, bus`words, bus.sim
      ensures bus.Valid() && old(bus.trace) < bus.trace && bus.words == old(bus.words) + [setWord]
      ensures r.Err? ==> r.error == AccessFailed && bus.trace[|bus.trace| - 1] == WriteLost(CONTROLWORD, 0, setWord)
      ensures r.Ok? ==> Acknowledges(bus.trace[|bus.trace| - 1], CONTROLWORD, 0, setWord, 2, false)
      ensures TicksBetween(bus.trace, |old(bus.trace)|, |bus.trace| - 1)
      ensures bus.live ==> r.Ok?
      ensures bus.Closed() && Poised(old(bus.sim.View()), 0) && old(bus.sim.View()).mode == MODE_HOMING ==>
                Seeks(bus.sim.View())
    {
      r := WriteWord(bus, setWord);
      if bus.Closed() && Poised(old(bus.sim.View()), 0) && old(bus.sim.View()).mode == MODE_HOMING {
        var d := DriveSpec.Run(old(bus.sim.View()), bus.between);
        var e := bus.trace[|bus.trace| - 1];
        TicksKeepPoised(old(bus.sim.View()), bus.between, 0);
        WordReachesDrive(d, e, setWord);
        EdgeStartsSeeking(Keep(d, CONTROLWORD, 0, e.raw), setWord, e.at);
      }
    }

    method ReleaseStart(clearWord: int) returns (r: Result<(), Failure>)
      requires bus.Valid() && IsWord(clearWord) && Holds(clearWord) && !HasBit(clearWord, Controlword.NEW_SET_POINT)
      modifies bus`trace, bus`between, bus`words, bus.sim
      ensures bus.Valid() && old(bus.trace) < bus.trace && bus.words == old(bus.words) + [clearWord]
      ensures r.Err? ==> r.error == AccessFailed && bus.trace[|bus.trace| - 1] == WriteLost(CONTROLWORD, 0, clearWord)
      ensures r.Ok? ==> Acknowledges(bus.trace[|bus.trace| - 1], CONTROLWORD, 0, clearWord, 2, false)
      ensures forall i :: |old(bus.trace)| <= i < |bus.trace| - 1 ==> Polling(bus.trace[i])
      ensures bus.Closed() && Seeks(old(bus.sim.View())) ==> r.Ok? && Seeks(bus.sim.View())
    {
      r := WriteWord(bus, clearWord);
      if bus.Closed() && Seeks(old(bus.sim.View())) {
        var d := DriveSpec.Run(old(bus.sim.View()), bus.between);
        var e := bus.trace[|bus.trace| - 1];
        TicksKeepSeeking(old(bus.sim.View()), bus.between);
        WordReachesDrive(d, e, clearWord);
        ReleaseKeepsSeeking(Keep(d, CONTROLWORD, 0, e.raw), clearWord, e.at);
      }
    }

    /** A barrier cycle, then the start pulse. Nothing takes the pulse back when it is cut short
        by a failing write. */
    method Start() returns (r: Result<(), Failure>, ghost words: seq<int>, ghost edge: nat, ghost release: nat)
      requires bus.Valid()
      modifies bus`trace, bus`between, bus`words, bus`now, bus.sim
      ensures bus.Valid() && old(bus.trace) < bus.trace && bus.words == old(bus.words) + words
      ensures NoParamLost(bus.trace, |old(bus.trace)|) && (words != [] ==> bus.now >= old(bus.now) + cfg.cycleDelay)
      ensures words == [] || words == [0x1F] || words == [0x1F, 0x0F]
      ensures r.Ok? ==> && words == [0x1F, 0x0F] && Pulsed(bus.trace, |old(bus.trace)|, edge, release)
                        && release == |bus.trace| - 1
      ensures words == [0x1F] <==> LostAtEnd(old(bus.trace), bus.trace, 0x1F)
      ensures words == [0x1F, 0x0F] && r.Err? <==> LostAtEnd(old(bus.trace), bus.trace, 0x0F)
      ensures words == [] <==> r.Err? && bus.trace[|bus.trace| - 1] == ReadLost(STATUSWORD, 0)
      ensures r.Err? ==> r.error == AccessFailed
      ensures bus.Closed() && Poised(old(bus.sim.View()), 0) && old(bus.sim.View()).mode == MODE_HOMING ==>
                r.Ok? && Seeks(bus.sim.View())
    {
      words, edge, release := [], 0, 0;
      var barrier := Barrier(bus, cfg.cycleDelay, 0);
      if barrier.Err? {
        return Err(barrier.error), words, edge, release;
      }
      var (setWord, clearWord) := Controlword.PulseNewSetPoint(Controlword.ENABLE_OPERATION);
      assert (setWord, clearWord) == (0x1F, 0x0F);
      words := [setWord];
      ghost var ready := bus.trace;
      var _ :- RaiseStart(setWord);
      edge := |bus.trace| - 1;
      BarrierHolds(ready, bus.trace, |old(bus.trace)|, edge);
      words := [setWord, clearWord];
      var _ :- ReleaseStart(clearWord);
      release := |bus.trace| - 1;
      return Ok(()), words, edge, release;
    }

    method PollStatus() returns (r: Result<int, Failure>)
      requires bus.Valid()
      modifies bus`trace, bus`between, bus.sim
      ensures bus.Valid() && OnePoll(old(bus.trace), bus.trace)
      ensures bus.trace[|bus.trace| - 1] == if r.Ok? then Got(STATUSWORD, 0, r.value) else ReadLost(STATUSWORD, 0)
      ensures r.Err? ==> r.error == AccessFailed
      ensures bus.Closed() && Seeks(old(bus.sim.View())) ==>
                && Seeks(bus.sim.View()) && r.Ok? && !HasBit(r.value, Statusword.BIT_13)
                && (HasBit(r.value, Statusword.OP_MODE_SPECIFIC) ==> AtHome(bus.sim.View()))
    {
      r := bus.Read(STATUSWORD, 0, 2, false);
      if bus.Closed() && Seeks(old(bus.sim.View())) {
        SeekingIsPolled(old(bus.sim.View()), bus.between);
      }
    }

    /** One round of the completion wait: a verdict, or none yet. */
    method Round(deadline: int) returns (verdict: Option<Result<HomingResult, Failure>>)
      requires bus.Valid()
      modifies bus`trace, bus`between, bus`now, bus.sim
      ensures bus.Valid() && old(bus.trace) < bus.trace && OnlyPolling(bus.trace, |old(bus.trace)|)
      ensures bus.now >= old(bus.now) && (verdict.None? ==> bus.now < deadline)
      ensures LooksWithin(bus.trace, |old(bus.trace)|, old(bus.now), bus.now)
      ensures bus.trace[|old(bus.trace)|].AbortPolled? && OneLook(bus.trace, |old(bus.trace)|, |bus.trace| - 1)
      ensures verdict.Some? ==> RoundEnds(bus.trace, |old(bus.trace)|, deadline, verdict.value)
      ensures verdict.None? ==> && Undecided(bus.trace, |old(bus.trace)|, |bus.trace|, StillHoming)
                                && AbortFirst(bus.trace, |old(bus.trace)|, |bus.trace|)
                                && bus.trace[|bus.trace| - 1].Clock? && bus.trace[|bus.trace| - 1].time < deadline
      ensures bus.Closed() && Seeks(old(bus.sim.View())) ==>
                && Seeks(bus.sim.View())
                && (verdict.Some? && verdict.value.Ok? ==>
                      AtHome(bus.sim.View()) && verdict.value.value.attained && !verdict.value.value.error)
                && (verdict.Some? && verdict.value.Err? ==> verdict.value.error in {HomingTimeout, MotionAborted})
    {
      hide After, WordsOf, ParamsOf;
      var aborted := bus.PollAbort();
      if aborted {
        return Some(Err(MotionAborted));
      }
      var sw := PollStatus();
      ghost var polled := bus.trace;
      RoundPolls(old(bus.trace), polled);
      if sw.Err? {
        return Some(Err(sw.error));
      }
      var attained, error := HasBit(sw.value, Statusword.OP_MODE_SPECIFIC), HasBit(sw.value, Statusword.BIT_13);
      if attained || error {
        return Some(Ok(HomingResult(attained, error, sw.value)));
      }
      var t := bus.Monotonic();
      RoundPends(old(bus.trace), polled, t);
      return if t >= deadline then Some(Err(HomingTimeout)) else None;
    }

    method WaitDone(timeout: Option<int>) returns (r: Result<HomingResult, Failure>, ghost last: nat)
      requires bus.Valid()
      modifies bus`trace, bus`between, bus`now, bus.sim
      ensures bus.now >= old(bus.now)
      ensures Paced(bus.trace, |old(bus.trace)|, cfg.pollInterval)
      ensures bus.Valid() && old(bus.trace) < bus.trace && OnlyPolling(bus.trace, |old(bus.trace)|)
      ensures r.Ok? ==> ReadAfter(bus.trace, |old(bus.trace)|, r.value)
      ensures WaitResult(bus.trace, |old(bus.trace)|, last, if timeout.Some? then timeout.value else cfg.timeout, r)
      ensures bus.Closed() && Seeks(old(bus.sim.View())) ==>
                && Seeks(bus.sim.View())
                && (r.Ok? ==> AtHome(bus.sim.View()) && r.value.attained && !r.value.error)
                && (r.Err? ==> r.error in {HomingTimeout, MotionAborted})
    {
      hide After, WordsOf, ParamsOf;
      ghost var seeking := bus.Closed() && Seeks(bus.sim.View());
      var started := bus.Monotonic();
      var deadline := started + (if timeout.Some? then timeout.value else cfg.timeout);
      while true
        invariant bus.Valid() && old(bus.trace) < bus.trace && OnlyPolling(bus.trace, |old(bus.trace)|)
        invariant bus.trace[|old(bus.trace)|] == Clock(started)
        invariant Waiting(bus.trace, |old(bus.trace)|, |old(bus.trace)| + 1, deadline, StillHoming)
        invariant seeking ==> Seeks(bus.sim.View())
        invariant bus.now >= old(bus.now)
        invariant Rested(bus.trace, |old(bus.trace)|, cfg.pollInterval, bus.now)
        decreases deadline - bus.now
      {
        ghost var soFar, was := bus.trace, bus.now;
        var verdict := Round(deadline);
        LookIsPaced(soFar, bus.trace, |old(bus.trace)|, cfg.pollInterval, |bus.trace| - 1, was, bus.now);
        PollsJoin(old(bus.trace), soFar, bus.trace);
        if verdict.Some? {
          WaitIsDecided(soFar, bus.trace, |old(bus.trace)|, |old(bus.trace)| + 1, deadline - started, StillHoming,
                        |bus.trace| - 1);
          return verdict.value, |soFar|;
        }
        StillWaiting(soFar, bus.trace, |old(bus.trace)|, |old(bus.trace)| + 1, deadline, StillHoming, |bus.trace| - 1);
        bus.Sleep(cfg.pollInterval);
      }
    }

    /** Mode and configuration, everything before the barrier cycle. */
    method Prepare() returns (r: Result<(), Failure>)
      requires bus.Valid()
      modifies bus`trace, bus`between, bus`params, bus`now, bus.sim
      ensures bus.Valid() && old(bus.trace) <= bus.trace
      ensures bus.now >= old(bus.now)
      ensures r.Ok? ==> NoParamLost(bus.trace, |old(bus.trace)|)
      ensures r.Ok? ==> bus.params == old(bus.params) + [Param(0x6060, 0, 6)] + cfg.Writes() && cfg.AllFit()
      ensures r.Err? ==> PreparationFails(|old(bus.trace)|, bus.trace, cfg.AllFit(), cfg.verifyMode, 6,
                                          cfg.modeSetTimeout, r.error)
      ensures bus.Closed() && Poised(old(bus.sim.View()), 0) ==>
                && (r.Ok? ==> Poised(bus.sim.View(), 0) && bus.sim.View().mode == MODE_HOMING)
                && (r.Ok? <==> cfg.AllFit()) && (r.Err? ==> r.error == ValueRefused)
    {
      ghost var shown;
      r, shown := EnsureMode();
      if r.Ok? {
        assert cfg.With(AS_CONFIGURED) == cfg;
        ghost var ready := bus.trace;
        r := Configure(AS_CONFIGURED);
        if r.Ok? {
          ParamsJoin(old(bus.trace), ready, bus.trace);
        }
      }
    }

    /** A homing run. Against any drive: a normal return means that the start pulse was written
        and acknowledged, and that a statusword read after it had bit 12 or bit 13, which the
        result repeats.
        On the simulator, alone, poised, with zero between the limits: a normal return means
        homed without error, at position zero, whatever an earlier homing left behind; the only
        ways to fail are the overall timeout, an abort, and parameters that do not fit. */
    method Run(timeout: Option<int>)
      returns (r: Result<HomingResult, Failure>, ghost words: seq<int>, ghost edge: nat, ghost release: nat,
               ghost last: nat)
      requires bus.Valid()
      modifies bus`trace, bus`between, bus`words, bus`params, bus`now, bus.sim
      ensures bus.Valid() && old(bus.trace) <= bus.trace && bus.words == old(bus.words) + words
      ensures words == [] || words == [0x1F] || words == [0x1F, 0x0F]
      ensures r.Ok? ==> && words == [0x1F, 0x0F] && Pulsed(bus.trace, |old(bus.trace)|, edge, release)
                        && ReadAfter(bus.trace, release + 1, r.value)
      ensures words == [0x1F] <==> LostAtEnd(old(bus.trace), bus.trace, 0x1F)
      ensures words == [0x1F, 0x0F] ==>
                LostAtEnd(old(bus.trace), bus.trace, 0x0F) || Pulsed(bus.trace, |old(bus.trace)|, edge, release)
      ensures LostAtEnd(old(bus.trace), bus.trace, 0x0F) ==> words == [0x1F, 0x0F] && r == Err(AccessFailed)
      ensures words == [0x1F] ==> r == Err(AccessFailed)
      ensures words == [0x1F, 0x0F] && !LostAtEnd(old(bus.trace), bus.trace, 0x0F) ==>
                WaitResult(bus.trace, release + 1, last, if timeout.Some? then timeout.value else cfg.timeout, r)
      ensures words == [] ==>
                && r.Err?
                && PreparationFails(|old(bus.trace)|, bus.trace, cfg.AllFit(), cfg.verifyMode, 6, cfg.modeSetTimeout,
                                    r.error)
      ensures words != [] ==> && bus.params == old(bus.params) + [Param(0x6060, 0, 6)] + cfg.Writes()
                              && NoParamLost(bus.trace, |old(bus.trace)|)
                              && bus.now >= old(bus.now) + cfg.cycleDelay
      ensures bus.Closed() && Poised(old(bus.sim.View()), 0) ==>
                && (r.Ok? ==>
                      && r.value.attained && !r.value.error
                      && bus.sim.View().axis.position == 0 && bus.sim.View().home.homed)
                && (r.Err? ==> r.error in {ValueRefused, HomingTimeout, MotionAborted})
                && (r == Err(ValueRefused) <==> !cfg.AllFit())
    {
      hide After, WordsOf, ParamsOf;
      words, edge, release, last := [], 0, 0, 0;
      var prepared := Prepare();
      LostWordIsLast(old(bus.trace), bus.trace, [], 0x1F);
      LostWordIsLast(old(bus.trace), bus.trace, [], 0x0F);
      if prepared.Err? {
        return Err(prepared.error), words, edge, release, last;
      }
      ghost var ready := bus.trace;
      var started;
      started, words, edge, release := Start();
      ghost var pulsed := bus.trace;
      ParamsJoin(old(bus.trace), ready, pulsed);
      if started.Err? {
        return Err(started.error), words, edge, release, last;
      }
      r, last := WaitDone(timeout);
      ParamsJoin(old(bus.trace), pulsed, bus.trace);
    }
  }
}
