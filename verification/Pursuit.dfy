/** The simulated drive under a profile-position move: from poised, over the rising edge, to
    landed, and what a HALT in between does. */
module Pursuit {
  import opened Prelude
  import opened Codec
  import opened Bits
  import opened DriveSpec
  import opened DriveInvariants
  import opened DriveMotion
  import opened DriveControl
  import opened Bus
  import Controlword
  import Statusword

  /** Enabled, fault-free, bit 4 low, and the target between the limits. */
  predicate Poised(d: Drive, target: int) {
    && Valid(d) && d.state == OperationEnabled && !d.fault && !d.emergency && !HoldsSetPoint(d)
    && d.limits.low <= target <= d.limits.high
  }

  /** On the way to the target, or there; bit 10 is set only there. */
  predicate Pursuing(d: Drive, target: int) {
    && d.goal == target && !d.fault && LimitsFit(d.limits) && d.limits.low <= target <= d.limits.high
    && d.axis.targetReached != d.axis.isMoving && IsInt32(d.regs.targetPosition)
    && (Landed(d) || (Approaching(d) && !d.axis.targetReached))
  }

  predicate Acknowledged(d: Drive) {
    d.flags.ack && HoldsSetPoint(d)
  }

  lemma TickKeepsPoised(d: Drive, now: int, target: int)
    requires Poised(d, target)
    ensures Poised(Tick(d, now), target)
    ensures Tick(d, now).regs.targetPosition == d.regs.targetPosition && Tick(d, now).mode == d.mode
  {
    TickKeepsValid(d, now);
    TickKeepsControl(d, now);
    TickKeepsParameters(d, now);
  }

  lemma TickKeepsParameters(d: Drive, now: int)
    ensures Tick(d, now).limits == d.limits
    ensures Tick(d, now).regs == d.regs.(targetVelocity := Tick(d, now).regs.targetVelocity)
    ensures Tick(d, now).flags.ack == d.flags.ack && Tick(d, now).goal == d.goal
  {
  }

  lemma {:induction false} TicksKeepPoised(d: Drive, steps: seq<Step>, target: int)
    requires EnvSteps(steps, false) && Poised(d, target)
    ensures Poised(Run(d, steps), target)
    ensures Run(d, steps).regs.targetPosition == d.regs.targetPosition && Run(d, steps).mode == d.mode
    decreases |steps|
  {
    if steps != [] {
      assert EnvStep(steps[0], false);
      TickKeepsPoised(d, steps[0].now, target);
      TicksKeepPoised(Apply(d, steps[0]), steps[1..], target);
    }
  }

  /** Writing a parameter leaves a poised drive poised and sets what it names. */
  lemma ParameterKeepsPoised(d: Drive, e: Event, index: int, subindex: int, value: int, size: nat, signed: bool,
                             target: int)
    requires Poised(d, target) && index !in {CONTROLWORD, POSITION_RANGE_LIMIT}
    requires Acknowledges(e, index, subindex, value, size, signed)
    ensures Poised(Effect(d, e), target)
    ensures index != MODES_OF_OPERATION ==> Effect(d, e).mode == d.mode
    ensures index == MODES_OF_OPERATION && size == 1 && 0 <= value < 128 ==> Effect(d, e).mode == value
    ensures index == TARGET_POSITION && size == 4 && signed ==> Effect(d, e).regs.targetPosition == value
  {
    WriteKeepsValid(d, index, subindex, e.raw, e.at);
    PackThenUnpack(value, size, signed, Little);
    assert FitTo(e.raw, size) == e.raw;
    if index == MODES_OF_OPERATION && size == 1 && 0 <= value < 128 {
      Pow256Values();
    }
  }

  lemma TickKeepsPursuing(d: Drive, now: int, target: int)
    requires Pursuing(d, target)
    ensures Pursuing(Tick(d, now), target)
  {
    TickKeepsControl(d, now);
    if Landed(d) {
      TickStaysLanded(d, now);
    } else if Distance(d) == 0 {
      LastTickLands(d, now);
    } else {
      TickApproaches(d, now);
      if Distance(Tick(d, now)) == 0 { LastTickLands(d, now); }
    }
  }

  lemma {:induction false} TicksKeepPursuing(d: Drive, steps: seq<Step>, target: int)
    requires EnvSteps(steps, false) && Pursuing(d, target)
    ensures Pursuing(Run(d, steps), target)
    ensures Acknowledged(d) ==> Acknowledged(Run(d, steps))
    decreases |steps|
  {
    if steps != [] {
      assert EnvStep(steps[0], false);
      TickKeepsPursuing(d, steps[0].now, target);
      TickKeepsControl(d, steps[0].now);
      TickKeepsParameters(d, steps[0].now);
      TicksKeepPursuing(Apply(d, steps[0]), steps[1..], target);
    }
  }

  lemma {:induction false} TicksKeepLanded(d: Drive, steps: seq<Step>)
    requires EnvSteps(steps, false) && Landed(d)
    ensures Landed(Run(d, steps)) && Run(d, steps).goal == d.goal
    decreases |steps|
  {
    if steps != [] {
      assert EnvStep(steps[0], false);
      TickStaysLanded(d, steps[0].now);
      TicksKeepLanded(Apply(d, steps[0]), steps[1..]);
    }
  }

  /** A held word keeps an enabled drive enabled. */
  predicate Holds(cw: int) {
    cw % 16 == 15 && !HasBit(cw, Controlword.HALT) && !HasBit(cw, Controlword.FAULT_RESET_BIT)
  }

  lemma HeldCommand(cw: int)
    requires IsWord(cw) && Holds(cw)
    ensures var c := Decode(cw);
            c.shutdown && c.switchOn && c.enableOperation && !c.quickStop && !c.halt && !c.faultReset
  {
  }

  /** The rising edge captures the set-point and acknowledges it. */
  lemma EdgeStartsPursuit(d: Drive, target: int, cw: int, now: int)
    requires Poised(d, target) && d.mode == MODE_PROFILE_POSITION && d.regs.targetPosition == target
    requires IsWord(cw) && Holds(cw) && HasBit(cw, Controlword.NEW_SET_POINT) && !HasBit(cw, Controlword.ABS_REL)
    ensures Pursuing(ApplyControlword(d, cw, now), target) && Acknowledged(ApplyControlword(d, cw, now))
  {
    HeldCommand(cw);
  }

  /** The goal that the rising edge captures: the target position, or that many units from where
      the axis stands when bit 6 is set, brought between the limits; the
      lower one when the limits are inverted. */
  lemma EdgeCapturesGoal(d: Drive, cw: int, now: int)
    requires Valid(d) && d.state == OperationEnabled && !d.fault && !d.emergency && !HoldsSetPoint(d)
    requires d.mode == MODE_PROFILE_POSITION
    requires IsWord(cw) && Holds(cw) && HasBit(cw, Controlword.NEW_SET_POINT)
    ensures var after := ApplyControlword(d, cw, now);
            var end := if HasBit(cw, 0x40) then d.axis.position + d.regs.targetPosition else d.regs.targetPosition;
            && after.goal == (if end < d.limits.low || d.limits.low > d.limits.high then d.limits.low
                              else if end > d.limits.high then d.limits.high else end)
            && after.flags.pp && after.flags.ack && !after.axis.targetReached
            && after.axis.position == d.axis.position
  {
    HeldCommand(cw);
  }

  /** Releasing bit 4 lets the move run on. */
  lemma ReleaseKeepsPursuit(d: Drive, target: int, cw: int, now: int)
    requires Pursuing(d, target) && IsWord(cw) && Holds(cw) && !HasBit(cw, Controlword.NEW_SET_POINT)
    ensures Pursuing(ApplyControlword(d, cw, now), target)
  {
    HeldCommand(cw);
  }

  lemma PursuitReports(d: Drive, target: int)
    requires Pursuing(d, target)
    ensures HasBit(MakeStatusword(d), Statusword.TARGET_REACHED) ==> d.axis.position == target
    ensures !HasBit(MakeStatusword(d), Statusword.FAULT)
    ensures Seen(d, POSITION_ACTUAL, 0, 4, true) == Ok(d.axis.position)
    ensures Seen(d, TARGET_POSITION, 0, 4, true).Ok?
    ensures Seen(d, STATUSWORD, 0, 2, false) == Ok(MakeStatusword(d))
    ensures Acknowledged(d) ==> HasBit(MakeStatusword(d), Statusword.OP_MODE_SPECIFIC)
  {
    StatuswordBits(d);
    StatuswordIsSeen(d);
    PositionIsSeen(d);
    Pow256Values();
    PackThenUnpack(d.regs.targetPosition, 4, true, Little);
  }

  lemma PositionIsSeen(d: Drive)
    requires IsInt32(d.axis.position)
    ensures Seen(d, POSITION_ACTUAL, 0, 4, true) == Ok(d.axis.position)
  {
    Pow256Values();
    PackThenUnpack(d.axis.position, 4, true, Little);
    var raw := ReadObject(d, POSITION_ACTUAL, 0, 4).value;
    assert FitTo(raw, 4) == raw;
  }

  // ------------------------------------------------------------ a stop against everything after it

  /** An event that neither raises bit 4 nor moves a limit. */
  predicate Quiet(e: Event) {
    match e
    case Env(step) => EnvStep(step, true)
    case Wrote(index, _, value, raw, _) =>
      && index != POSITION_RANGE_LIMIT
      && (index == CONTROLWORD ==>
            IsWord(value) && !HasBit(value, Controlword.NEW_SET_POINT) && PackInt(value, 2, false, Little) == Ok(raw))
    case _ => true
  }

  /** What a move still does after its rising edge: it polls, and writes the clear word. */
  predicate Trailing(e: Event, clearWord: int) {
    Quiet(e) && (IsWrite(e) ==> e.index == CONTROLWORD && e.value == clearWord)
  }

  lemma QuietKeepsRest(d: Drive, e: Event)
    requires AtRest(d.flags) && Quiet(e)
    ensures AtRest(Effect(d, e).flags) && Effect(d, e).axis.position == d.axis.position
  {
    match e
    case Env(step) =>
      CalmStep(d, step);
    case Wrote(index, subindex, value, raw, at) =>
      if index == CONTROLWORD {
        PackThenUnpack(value, 2, false, Little);
        assert FitTo(raw, 2) == raw;
      }
      CalmStep(d, Object(index, subindex, raw, at));
    case _ =>
  }

  /** A HALT word stops whatever moves, where it is. */
  lemma HaltLands(d: Drive, e: Event, word: int)
    requires IsWord(word) && HasBit(word, Controlword.HALT) && Acknowledges(e, CONTROLWORD, 0, word, 2, false)
    ensures AtRest(Effect(d, e).flags) && Effect(d, e).axis.position == d.axis.position
  {
    WordReachesDrive(d, e, word);
    var kept := Keep(d, CONTROLWORD, 0, e.raw);
    ObeyAtRest(LatchControlword(kept, word), Decode(word), RisingEdge(kept, word), e.at);
  }

  predicate QuietFrom(trace: seq<Event>, from: nat) {
    forall i :: from <= i < |trace| ==> Quiet(trace[i])
  }

  lemma QuietJoins(before: seq<Event>, middle: seq<Event>, after: seq<Event>)
    requires before <= middle <= after
    requires QuietFrom(middle, |before|) && QuietFrom(after, |middle|)
    ensures QuietFrom(after, |before|)
  {
    forall i | |before| <= i < |after| ensures Quiet(after[i]) {
      if i < |middle| { assert after[i] == middle[i]; }
    }
  }

  lemma AccessIsQuiet(before: seq<Event>, between: seq<Step>, shared: bool, last: Event)
    requires EnvSteps(between, shared) && Quiet(last)
    ensures QuietFrom(before + EnvEvents(between) + [last], |before|)
  {
    var after := before + EnvEvents(between) + [last];
    forall i | |before| <= i < |after| ensures Quiet(after[i]) {
      if i < |after| - 1 { assert EnvStep(between[i - |before|], shared); }
    }
  }

  lemma QuietPrefix(trace: seq<Event>, from: nat)
    requires from < |trace| && QuietFrom(trace, from)
    ensures QuietFrom(trace[..|trace| - 1], from) && Quiet(trace[|trace| - 1])
    ensures trace[..|trace| - 1][..from] == trace[..from]
  {
  }

  lemma {:induction false} QuietTraceRests(start: Drive, trace: seq<Event>, from: nat)
    requires from <= |trace| && AtRest(After(start, trace[..from]).flags) && QuietFrom(trace, from)
    ensures AtRest(After(start, trace).flags)
    ensures After(start, trace).axis.position == After(start, trace[..from]).axis.position
    decreases |trace|
  {
    if from == |trace| {
      assert trace[..from] == trace;
    } else {
      var last := |trace| - 1;
      QuietPrefix(trace, from);
      QuietTraceRests(start, trace[..last], from);
      QuietKeepsRest(After(start, trace[..last]), trace[last]);
    }
  }

  /** Another task's word that stops the drive: HALT, a quick stop, a fault reset. */
  predicate StoppedByOther(start: Drive, trace: seq<Event>, stop: nat) {
    stop < |trace| && trace[stop].Env? && Stops(After(start, trace[..stop]), trace[stop].step)
  }

  lemma PrefixIsStopped(start: Drive, trace: seq<Event>, n: nat, stop: nat)
    requires stop < n <= |trace| && StoppedByOther(start, trace, stop) && QuietFrom(trace, stop)
    ensures StoppedByOther(start, trace[..n], stop) && QuietFrom(trace[..n], stop)
    ensures trace[..n][..stop] == trace[..stop]
  {
    assert trace[..n][..stop] == trace[..stop];
  }

  /** If another task's stop lands after the rising edge of a move, nothing the move still does
      can restart the axis: it stays where the stop found it. */
  lemma StopBeatsMove(start: Drive, trace: seq<Event>, stop: nat)
    requires StoppedByOther(start, trace, stop) && QuietFrom(trace, stop)
    ensures AtRest(After(start, trace).flags)
    ensures After(start, trace).axis.position == After(start, trace[..stop]).axis.position
  {
    var before, upTo := After(start, trace[..stop]), trace[..stop + 1];
    assert upTo[..stop] == trace[..stop];
    StopStep(before, trace[stop].step);
    QuietTraceRests(start, trace, stop + 1);
  }

  /** A set word whose acknowledge was lost stays latched, because no clear word follows it. The
      set word of the next move is then no rising edge: it starts nothing. */
  lemma LatchedSetPointBlocksNextStart(d: Drive, cw: int, now: int)
    requires HoldsSetPoint(d) && IsWord(cw) && Holds(cw) && HasBit(cw, Controlword.NEW_SET_POINT)
    ensures FlagsWithin(ApplyControlword(d, cw, now).flags, d.flags) && ApplyControlword(d, cw, now).goal == d.goal
  {
    HeldCommand(cw);
  }
}
