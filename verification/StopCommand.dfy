/** The stop command: `_execute_stop` and `_halt_motor` of src/dryve_d1/api/motion_commands.py. */
module StopCommand {
  import opened Prelude
  import opened Bits
  import opened DriveSpec
  import opened DriveInvariants
  import opened DriveMotion
  import opened DriveControl
  import opened Access
  import opened Bus
  import opened Preparation
  import opened Pursuit
  import opened StateMachine
  import Controlword
  import PP = ProfilePosition
  import PV = ProfileVelocity
  import Statusword

  const HALT_WORD: int := 0x010F
  const QUICK_STOP_WORD: int := 0x000B

  /** How the best-effort part after HALT ended; none of the ends raises. */
  datatype Outcome = Completed | Skipped | Failed(error: Failure)

  /** How the best-effort part stops the axis a second time. */
  datatype Manner = Nothing | ByQuickStop | ByHalt | ByZeroVelocity

  /** What is connected. */
  datatype Parts = Parts(machine: bool, position: bool, velocity: bool)

  /** The manner that suits the mode, given what is connected. */
  function Choice(mode: int, quick: bool, parts: Parts): Manner {
    if quick then ByQuickStop
    else if mode == MODE_PROFILE_POSITION && parts.position then ByHalt
    else if mode == MODE_PROFILE_VELOCITY && parts.velocity then ByZeroVelocity
    else ByQuickStop
  }

  function WordsFor(manner: Manner): seq<int> {
    match manner
    case ByQuickStop => [QUICK_STOP_WORD]
    case ByHalt => [HALT_WORD]
    case _ => []
  }

  function ParamsFor(manner: Manner): seq<Param> {
    if manner == ByZeroVelocity then [Param(TARGET_VELOCITY, 0, 0)] else []
  }

  predicate ShowsEnabled(sw: int) {
    HasBit(sw, Statusword.OPERATION_ENABLED) || HasBit(sw, Statusword.QUICK_STOP)
  }

  /** One HALT, or two when the first raised; then what the best-effort part wrote. */
  predicate StopWords(words: seq<int>, manner: Manner) {
    words == [HALT_WORD] + WordsFor(manner) || words == [HALT_WORD, HALT_WORD] + WordsFor(manner)
  }

  /** What a second stop writes when the mode display shows this mode: one more HALT in mode 1, the
      target velocity zero in mode 3, each only with its helper, and otherwise a quick stop. */
  predicate SuitsMode(mode: int, words: seq<int>, params: seq<Param>, parts: Parts) {
    && (mode == 1 && parts.position ==> words == [0x010F] && params == [])
    && (mode == 3 && parts.velocity ==> words == [] && params == [Param(0x60FF, 0, 0)])
    && (mode != 1 && mode != 3 ==> words == [0x000B] && params == [])
    && ((mode == 1 && !parts.position) || (mode == 3 && !parts.velocity) ==> words == [0x000B] && params == [])
  }

  /** What a second stop wrote suits a mode display read after `from`; a quick stop reads none. */
  predicate ChosenByMode(trace: seq<Event>, from: nat, quick: bool, manner: Manner, parts: Parts) {
    if quick then WordsFor(manner) == [0x000B] && ParamsFor(manner) == []
    else exists i :: from <= i < |trace| && trace[i].Got? && trace[i].index == 0x6061
                     && SuitsMode(trace[i].value, WordsFor(manner), ParamsFor(manner), parts)
  }

  lemma ChoiceSuits(mode: int, parts: Parts)
    ensures var manner := Choice(mode, false, parts); SuitsMode(mode, WordsFor(manner), ParamsFor(manner), parts)
    ensures WordsFor(Choice(mode, true, parts)) == [0x000B] && ParamsFor(Choice(mode, true, parts)) == []
  {
  }

  lemma ChosenExtends(from: nat, before: seq<Event>, after: seq<Event>, quick: bool, manner: Manner, parts: Parts)
    requires before <= after && ChosenByMode(before, from, quick, manner, parts)
    ensures ChosenByMode(after, from, quick, manner, parts)
  {
    if !quick {
      var i :| from <= i < |before| && before[i].Got? && before[i].index == 0x6061
               && SuitsMode(before[i].value, WordsFor(manner), ParamsFor(manner), parts);
      assert after[i] == before[i];
    }
  }

  lemma ChosenStays(before: seq<Event>, middle: seq<Event>, after: seq<Event>, quick: bool, manner: Manner,
                    parts: Parts)
    requires before <= middle <= after && ChosenByMode(after, |middle|, quick, manner, parts)
    ensures ChosenByMode(after, |before|, quick, manner, parts)
  {
  }

  /** The best-effort part follows a HALT. */
  lemma StopsJoin(before: seq<Event>, middle: seq<Event>, after: seq<Event>, quick: bool, manner: Manner,
                  parts: Parts)
    requires before <= middle <= after && QuietFrom(middle, |before|) && QuietFrom(after, |middle|)
    requires manner != Nothing ==> ChosenByMode(after, |middle|, quick, manner, parts)
    ensures QuietFrom(after, |before|)
    ensures manner != Nothing ==> ChosenByMode(after, |before|, quick, manner, parts)
  {
    QuietJoins(before, middle, after);
    if manner != Nothing {
      ChosenStays(before, middle, after, quick, manner, parts);
    }
  }

  lemma ConductIsQuiet(trace: seq<Event>, from: nat, requireRemote: bool, clean: bool)
    requires Conduct(trace, from, requireRemote, clean)
    ensures QuietFrom(trace, from) && (clean ==> NothingLost(trace, from))
  {
    forall i | from <= i < |trace| ensures Quiet(trace[i]) {
      assert BringUpEvent(trace[i]);
      if trace[i].Wrote? {
        BringUpWordsStartNothing(trace[i].value);
      }
    }
  }

  /** No access was lost but writes of HALT. */
  predicate LostOnlyHalts(trace: seq<Event>, from: nat) {
    forall i :: from <= i < |trace| ==> !trace[i].ReadLost? && (trace[i].WriteLost? ==> HaltLostAt(trace, i))
  }

  predicate HaltLostAt(trace: seq<Event>, i: nat) {
    i < |trace| && trace[i] == WriteLost(0x6040, 0, 0x010F)
  }

  /** A write of HALT was lost. */
  predicate HaltLost(trace: seq<Event>, from: nat) {
    exists i :: from <= i < |trace| && HaltLostAt(trace, i)
  }

  lemma HaltsJoin(before: seq<Event>, middle: seq<Event>, after: seq<Event>)
    requires before <= middle <= after && LostOnlyHalts(middle, |before|)
    ensures NothingLost(after, |middle|) ==> LostOnlyHalts(after, |before|)
    ensures HaltLost(middle, |before|) ==> HaltLost(after, |before|)
  {
    forall i | |before| <= i < |middle| && HaltLostAt(middle, i) ensures HaltLostAt(after, i) {
      assert after[i] == middle[i];
    }
    if NothingLost(after, |middle|) {
      forall i | |before| <= i < |after|
        ensures !after[i].ReadLost? && (after[i].WriteLost? ==> HaltLostAt(after, i))
      {
        if i < |middle| { assert after[i] == middle[i]; }
      }
    }
  }

  /** One more HALT. */
  lemma HaltTried(before: seq<Event>, middle: seq<Event>, after: seq<Event>, arrived: bool)
    requires before <= middle < after && LostOnlyHalts(middle, |before|) && TicksBetween(after, |middle|, |after| - 1)
    requires if arrived then after[|after| - 1].Wrote? else after[|after| - 1] == WriteLost(0x6040, 0, 0x010F)
    ensures LostOnlyHalts(after, |before|) && (!arrived || HaltLost(middle, |before|) ==> HaltLost(after, |before|))
  {
    forall i | |before| <= i < |middle|
      ensures after[i] == middle[i] && (HaltLostAt(middle, i) ==> HaltLostAt(after, i))
    {
    }
    assert !arrived ==> HaltLostAt(after, |after| - 1);
  }

  /** Why the best-effort part failed: nothing is connected, or what the trace ends with. */
  predicate FailsBecause(trace: seq<Event>, parts: Parts, outcome: Outcome) {
    outcome.Failed? ==>
      && outcome.error in {NotConnected, AccessFailed, InvalidBootState, RemoteDisabled}
      && if outcome.error == NotConnected then !parts.machine else Cause(trace, true, outcome.error)
  }

  /** Since HALT, nothing has moved the axis and nothing will before the next start. */
  predicate HaltedSince(start: Drive, trace: seq<Event>, halted: nat) {
    && halted < |trace| && Acknowledges(trace[halted], CONTROLWORD, 0, HALT_WORD, 2, false)
    && AtRest(After(start, trace).flags)
    && After(start, trace).axis.position == After(start, trace[..halted]).axis.position
  }

  /** An acknowledged HALT among events that are quiet from some point before it on. */
  lemma HaltHolds(start: Drive, trace: seq<Event>, from: nat, halted: nat)
    requires from <= halted < |trace| && QuietFrom(trace, from)
    requires Acknowledges(trace[halted], CONTROLWORD, 0, HALT_WORD, 2, false)
    ensures HaltedSince(start, trace, halted)
  {
    var upTo := trace[..halted + 1];
    assert upTo[..halted] == trace[..halted];
    HaltWordBits();
    HaltLands(After(start, trace[..halted]), trace[halted], HALT_WORD);
    QuietTraceRests(start, trace, halted + 1);
  }

  class MotionCommands {
    const bus: RegisterBus
    /** Present only while connected. */
    const machine: CiA402StateMachine?
    const position: PP.ProfilePosition?
    const velocity: PV.ProfileVelocity?
    var abortSet: bool
    /** A random identifier in the source; all that matters is that it changes. */
    var abortToken: int

    constructor (bus: RegisterBus, machine: CiA402StateMachine?, position: PP.ProfilePosition?,
                 velocity: PV.ProfileVelocity?)
      ensures this.bus == bus && this.machine == machine && this.position == position && this.velocity == velocity
    {
      this.bus, this.machine, this.position, this.velocity := bus, machine, position, velocity;
      abortSet, abortToken := false, 0;
    }

    function Connected(): Parts {
      Parts(machine != null, position != null, velocity != null)
    }

    ghost predicate Ready()
      reads bus, bus.sim
    {
      bus.Valid() && (machine != null ==> machine.bus == bus) && (position != null ==> position.bus == bus)
      && (velocity != null ==> velocity.bus == bus)
    }

    /** Write HALT, and once more if that raises. */
    method HaltMotor() returns (ok: bool, ghost halted: nat, ghost halts: seq<int>)
      requires Ready()
      modifies bus`trace, bus`between, bus`words, bus.sim
      ensures Ready() && old(bus.trace) < bus.trace && QuietFrom(bus.trace, |old(bus.trace)|)
      ensures bus.words == old(bus.words) + halts && (halts == [HALT_WORD] || halts == [HALT_WORD, HALT_WORD])
      ensures LostOnlyHalts(bus.trace, |old(bus.trace)|)
      ensures halts == [HALT_WORD, HALT_WORD] ==> HaltLost(bus.trace, |old(bus.trace)|)
      ensures ok ==> |old(bus.trace)| <= halted == |bus.trace| - 1
                     && Acknowledges(bus.trace[halted], CONTROLWORD, 0, HALT_WORD, 2, false)
      ensures !ok ==>
                halts == [HALT_WORD, HALT_WORD] && bus.trace[|bus.trace| - 1] == WriteLost(CONTROLWORD, 0, HALT_WORD)
      ensures bus.live ==> ok && halts == [HALT_WORD]
      ensures bus.Closed() ==> SameStateAndMode(old(bus.sim.View()), bus.sim.View())
    {
      halted, halts := 0, [];
      for attempt := 0 to 2
        invariant Ready() && old(bus.trace) <= bus.trace && QuietFrom(bus.trace, |old(bus.trace)|)
        invariant bus.words == old(bus.words) + halts && halts == [HALT_WORD, HALT_WORD][..attempt]
        invariant LostOnlyHalts(bus.trace, |old(bus.trace)|)
        invariant attempt > 0 ==> HaltLost(bus.trace, |old(bus.trace)|)
        invariant attempt > 0 ==> !bus.live && old(bus.trace) < bus.trace
                                  && bus.trace[|bus.trace| - 1] == WriteLost(CONTROLWORD, 0, HALT_WORD)
        invariant attempt == 0 ==> bus.sim.View() == old(bus.sim.View())
      {
        ghost var before := bus.trace;
        HaltWordBits();
        var written := WriteHalt(Controlword.HaltWord());
        QuietJoins(old(bus.trace), before, bus.trace);
        HaltTried(old(bus.trace), before, bus.trace, written.Ok?);
        halts := halts + [HALT_WORD];
        if written.Ok? {
          return true, |bus.trace| - 1, halts;
        }
      }
      return false, halted, halts;
    }

    method WriteHalt(word: int) returns (r: Result<(), Failure>)
      requires Ready() && IsWord(word) && HasBit(word, Controlword.HALT)
      requires !HasBit(word, Controlword.FAULT_RESET_BIT) && !HasBit(word, Controlword.NEW_SET_POINT)
      modifies bus`trace, bus`between, bus`words, bus.sim
      ensures Ready() && old(bus.trace) < bus.trace && QuietFrom(bus.trace, |old(bus.trace)|)
      ensures bus.words == old(bus.words) + [word]
      ensures r.Ok? ==> Acknowledges(bus.trace[|bus.trace| - 1], CONTROLWORD, 0, word, 2, false)
      ensures r.Err? ==> bus.trace[|bus.trace| - 1] == WriteLost(CONTROLWORD, 0, word)
      ensures TicksBetween(bus.trace, |old(bus.trace)|, |bus.trace| - 1)
      ensures bus.live ==> r.Ok?
      ensures bus.Closed() ==> SameStateAndMode(old(bus.sim.View()), bus.sim.View())
    {
      r := WriteQuietWord(bus, word);
      if bus.Closed() {
        HaltKeepsState(old(bus.sim.View()), bus.between, bus.trace[|bus.trace| - 1], word);
      }
    }

    /** The cached statusword, or else one read now. */
    method GetStatus(cached: Option<int>) returns (sw: Result<int, Failure>)
      requires Ready()
      modifies bus`trace, bus`between, bus.sim
      ensures Ready() && old(bus.trace) <= bus.trace && QuietFrom(bus.trace, |old(bus.trace)|)
      ensures cached.Some? ==> sw == Ok(cached.value) && bus.sim.View() == old(bus.sim.View())
      ensures cached.None? ==> && old(bus.trace) < bus.trace
                               && bus.trace[|bus.trace| - 1] == if sw.Ok? then Got(STATUSWORD, 0, sw.value)
                                                                else ReadLost(STATUSWORD, 0)
      ensures sw.Err? ==> sw.error == AccessFailed
      ensures sw.Ok? ==> NothingLost(bus.trace, |old(bus.trace)|)
      ensures bus.Closed() ==> SameStateAndMode(old(bus.sim.View()), bus.sim.View())
      ensures bus.Closed() && cached.None? ==> sw == Ok(MakeStatusword(bus.sim.View()))
    {
      hide After, WordsOf, ParamsOf;
      if cached.Some? {
        return Ok(cached.value);
      }
      sw := bus.Read(STATUSWORD, 0, 2, false);
      AccessIsQuiet(old(bus.trace), bus.between, bus.shared, bus.trace[|bus.trace| - 1]);
      if bus.Closed() {
        TicksKeepControl(old(bus.sim.View()), bus.between);
        StatuswordIsSeen(bus.sim.View());
      }
    }

    method ReadMode() returns (mode: Result<int, Failure>)
      requires Ready()
      modifies bus`trace, bus`between, bus.sim
      ensures Ready() && old(bus.trace) < bus.trace && QuietFrom(bus.trace, |old(bus.trace)|)
      ensures bus.trace[|bus.trace| - 1] == if mode.Ok? then Got(MODES_OF_OPERATION_DISPLAY, 0, mode.value)
                                            else ReadLost(MODES_OF_OPERATION_DISPLAY, 0)
      ensures mode.Err? ==> mode.error == AccessFailed
      ensures mode.Ok? ==> NothingLost(bus.trace, |old(bus.trace)|)
      ensures bus.Closed() ==> SameStateAndMode(old(bus.sim.View()), bus.sim.View())
                               && mode == ModeSeen(bus.sim.View())
    {
      hide After, WordsOf, ParamsOf;
      mode := bus.Read(MODES_OF_OPERATION_DISPLAY, 0, 1, true);
      AccessIsQuiet(old(bus.trace), bus.between, bus.shared, bus.trace[|bus.trace| - 1]);
      if bus.Closed() {
        TicksKeepControl(old(bus.sim.View()), bus.between);
        DisplayIsSeen(bus.sim.View());
      }
    }

    /** The manner of the second stop; only a normal stop looks at the mode. */
    method Decide(quick: bool) returns (r: Result<Manner, Failure>)
      requires Ready()
      modifies bus`trace, bus`between, bus.sim
      ensures Ready() && old(bus.trace) <= bus.trace && QuietFrom(bus.trace, |old(bus.trace)|)
      ensures r.Ok? ==> r.value != Nothing && ChosenByMode(bus.trace, |old(bus.trace)|, quick, r.value, Connected())
      ensures r.Ok? ==> NothingLost(bus.trace, |old(bus.trace)|)
      ensures r.Err? ==> r.error == AccessFailed && old(bus.trace) < bus.trace && bus.trace[|bus.trace| - 1].ReadLost?
      ensures bus.Closed() ==>
                && SameStateAndMode(old(bus.sim.View()), bus.sim.View())
                && SecondEndsAs(old(bus.sim.View()), quick, Connected(),
                                if r.Ok? then Completed else Failed(r.error), if r.Ok? then r.value else Nothing)
    {
      if quick {
        ChoiceSuits(0, Connected());
        return Ok(Choice(0, quick, Connected()));
      }
      var mode := ReadMode();
      if mode.Err? {
        return Err(mode.error);
      }
      assert bus.trace[|bus.trace| - 1] == Got(MODES_OF_OPERATION_DISPLAY, 0, mode.value);
      ChoiceSuits(mode.value, Connected());
      return Ok(Choice(mode.value, quick, Connected()));
    }

    /** Stop the axis in one manner. */
    method Perform(manner: Manner) returns (r: Result<(), Failure>)
      requires Ready() && machine != null && manner != Nothing && (manner == ByHalt ==> position != null)
        && (manner == ByZeroVelocity ==> velocity != null)
      modifies bus`trace, bus`between, bus`words, bus`params, bus`now, bus.sim
      ensures Ready() && old(bus.trace) <= bus.trace && QuietFrom(bus.trace, |old(bus.trace)|)
      ensures bus.words == old(bus.words) + WordsFor(manner) && bus.params == old(bus.params) + ParamsFor(manner)
      ensures r.Ok? ==> NothingLost(bus.trace, |old(bus.trace)|)
      ensures r.Err? ==> FailsBecause(bus.trace, Connected(), Failed(r.error))
      ensures bus.Closed() ==> r.Ok?
    {
      match manner
      case ByQuickStop =>
        r := machine.QuickStop();
        ConductIsQuiet(bus.trace, |old(bus.trace)|, machine.requireRemote, r.Ok?);
      case ByHalt =>
        r := position.Halt(true);
      case ByZeroVelocity =>
        r := velocity.Stop();
    }

    /** The mode-aware part after HALT. On the simulator, alone, its end follows from the state,
        the mode and what is connected. */
    method BestEffort(quick: bool, cached: Option<int>) returns (outcome: Outcome, manner: Manner)
      requires Ready()
      modifies bus`trace, bus`between, bus`words, bus`params, bus`now, bus.sim
      ensures Ready() && old(bus.trace) <= bus.trace && QuietFrom(bus.trace, |old(bus.trace)|)
      ensures bus.words == old(bus.words) + WordsFor(manner) && bus.params == old(bus.params) + ParamsFor(manner)
      ensures FailsBecause(bus.trace, Connected(), outcome)
      ensures outcome.Completed? ==> NothingLost(bus.trace, |old(bus.trace)|)
      ensures outcome.Completed? ==> manner != Nothing
      ensures manner != Nothing ==> ChosenByMode(bus.trace, |old(bus.trace)|, quick, manner, Connected())
      ensures if manner == Nothing then NotTried(bus.trace, |old(bus.trace)|, cached, Connected(), outcome)
              else !outcome.Skipped? && Shown(bus.trace, |old(bus.trace)|, cached, true)
      ensures bus.Closed() ==>
                EndsAs(old(bus.sim.View()), quick, cached, Connected(), outcome, manner)
    {
      hide After, WordsOf, ParamsOf, ChosenByMode, MakeStatusword;
      var sw := GetStatus(cached);
      ghost var polled := bus.trace;
      if bus.Closed() {
        EnabledIsShown(bus.sim.View());
      }
      if sw.Err? {
        return Failed(sw.error), Nothing;
      }
      assert Shown(bus.trace, |old(bus.trace)|, cached, ShowsEnabled(sw.value));
      if !ShowsEnabled(sw.value) {
        return Skipped, Nothing;
      }
      if machine == null {
        return Failed(NotConnected), Nothing;
      }
      outcome, manner := SecondStop(quick);
      StopsJoin(old(bus.trace), polled, bus.trace, quick, manner, Connected());
      ShownStays(old(bus.trace), polled, bus.trace, cached, true);
      if outcome.Completed? {
        LossesJoin(old(bus.trace), polled, bus.trace);
      }
    }

    /** Decide on a manner and stop in it. */
    method SecondStop(quick: bool) returns (outcome: Outcome, manner: Manner)
      requires Ready() && machine != null
      modifies bus`trace, bus`between, bus`words, bus`params, bus`now, bus.sim
      ensures Ready() && old(bus.trace) <= bus.trace && QuietFrom(bus.trace, |old(bus.trace)|)
      ensures bus.words == old(bus.words) + WordsFor(manner) && bus.params == old(bus.params) + ParamsFor(manner)
      ensures outcome.Completed? ==> manner != Nothing
      ensures manner != Nothing ==> ChosenByMode(bus.trace, |old(bus.trace)|, quick, manner, Connected())
      ensures !outcome.Skipped? && FailsBecause(bus.trace, Connected(), outcome)
      ensures outcome.Completed? ==> NothingLost(bus.trace, |old(bus.trace)|)
      ensures manner == Nothing ==>
                outcome == Failed(AccessFailed) && old(bus.trace) < bus.trace && bus.trace[|bus.trace| - 1].ReadLost?
      ensures bus.Closed() ==> SecondEndsAs(old(bus.sim.View()), quick, Connected(), outcome, manner)
    {
      var decided := Decide(quick);
      if decided.Err? {
        return Failed(decided.error), Nothing;
      }
      manner := decided.value;
      ghost var chosen := bus.trace;
      var done := Perform(manner);
      QuietJoins(old(bus.trace), chosen, bus.trace);
      ChosenExtends(|old(bus.trace)|, chosen, bus.trace, quick, manner, Connected());
      outcome := if done.Ok? then Completed else Failed(done.error);
      if done.Ok? {
        LossesJoin(old(bus.trace), chosen, bus.trace);
      }
    }

    /** `stop` and `quick_stop`. Whatever the drive does, the command ends without raising, with
        the abort flag set and the token changed, having written HALT first and never a word
        with bit 4. On the simulator the axis stands where HALT found it, at rest, although
        other tasks went on writing their words without bit 4. */
    method ExecuteStop(quick: bool, cached: Option<int>)
      returns (outcome: Outcome, ghost manner: Manner, ghost words: seq<int>, ghost halted: nat)
      requires Ready()
      modifies this, bus`trace, bus`between, bus`words, bus`params, bus`now, bus.sim
      ensures Ready() && abortSet && abortToken != old(abortToken)
      ensures old(bus.trace) < bus.trace && QuietFrom(bus.trace, |old(bus.trace)|)
      ensures bus.words == old(bus.words) + words && StopWords(words, manner)
      ensures bus.params == old(bus.params) + ParamsFor(manner)
      ensures FailsBecause(bus.trace, Connected(), outcome)
      ensures outcome.Completed? ==> LostOnlyHalts(bus.trace, |old(bus.trace)|)
      ensures words == [HALT_WORD] + WordsFor(manner) || HaltLost(bus.trace, |old(bus.trace)|)
      ensures outcome.Completed? ==> manner != Nothing
      ensures manner != Nothing ==> ChosenByMode(bus.trace, |old(bus.trace)|, quick, manner, Connected())
      ensures if manner == Nothing then NotTried(bus.trace, |old(bus.trace)|, cached, Connected(), outcome)
              else !outcome.Skipped? && Shown(bus.trace, |old(bus.trace)|, cached, true)
      ensures bus.live ==> |old(bus.trace)| <= halted && words == [HALT_WORD] + WordsFor(manner)
                           && HaltedSince(bus.start, bus.trace, halted)
      ensures bus.Closed() ==>
                EndsAs(old(bus.sim.View()), quick, cached, Connected(), outcome, manner)
    {
      hide After, WordsOf, ParamsOf;
      abortToken, abortSet := abortToken + 1, true;
      var ok;
      ghost var halts;
      ok, halted, halts := HaltMotor();
      ghost var haltTrace := bus.trace;
      if bus.Closed() {
        EndsAlike(old(bus.sim.View()), bus.sim.View(), quick, cached, Connected());
      }
      var how;
      outcome, how := BestEffort(quick, cached);
      manner, words := how, halts + WordsFor(how);
      StopsJoin(old(bus.trace), haltTrace, bus.trace, quick, how, Connected());
      ReasonsJoin(old(bus.trace), haltTrace, bus.trace, cached, Connected(), outcome);
      HaltsJoin(old(bus.trace), haltTrace, bus.trace);
      if bus.live {
        assert bus.trace[halted] == haltTrace[halted];
        HaltHolds(bus.start, bus.trace, |old(bus.trace)|, halted);
      }
    }
  }

  lemma HaltWordBits()
    ensures Controlword.HaltWord() == HALT_WORD && IsWord(HALT_WORD) && HasBit(HALT_WORD, Controlword.HALT)
    ensures !HasBit(HALT_WORD, Controlword.FAULT_RESET_BIT) && !HasBit(HALT_WORD, Controlword.NEW_SET_POINT)
  {
  }

  predicate SameStateAndMode(d: Drive, d': Drive) {
    d'.state == d.state && d'.display == d.display
  }

  lemma HaltKeepsState(d: Drive, between: seq<Step>, e: Event, word: int)
    requires EnvSteps(between, false) && Acknowledges(e, CONTROLWORD, 0, word, 2, false) && IsWord(word)
    requires HasBit(word, Controlword.HALT) && !HasBit(word, Controlword.FAULT_RESET_BIT)
    ensures SameStateAndMode(d, Effect(Run(d, between), e))
  {
    TicksKeepControl(d, between);
    WordReachesDrive(Run(d, between), e, word);
  }

  function ModeSeen(d: Drive): Result<int, Failure> {
    if d.display % 256 < 128 then Ok(d.display % 256) else Err(AccessFailed)
  }

  /** How the best-effort part ends on the simulated drive, and what it writes. */
  predicate EndsAs(d: Drive, quick: bool, cached: Option<int>, parts: Parts, outcome: Outcome, manner: Manner) {
    if !(if cached.Some? then EnabledBits(cached.value) else d.state in {ReadyToSwitchOn, SwitchedOn, OperationEnabled})
    then outcome == Skipped && manner == Nothing
    else if !parts.machine then outcome == Failed(NotConnected) && manner == Nothing
    else SecondEndsAs(d, quick, parts, outcome, manner)
  }

  /** The simulator fails to report a negative mode; else the stop suits the mode. */
  predicate SecondEndsAs(d: Drive, quick: bool, parts: Parts, outcome: Outcome, manner: Manner) {
    if !quick && d.display % 256 >= 128 then outcome == Failed(AccessFailed) && manner == Nothing
    else
      && outcome == Completed && manner != Nothing
      && (if quick then WordsFor(manner) == [0x000B] && ParamsFor(manner) == []
          else SuitsMode(d.display % 256, WordsFor(manner), ParamsFor(manner), parts))
  }

  /** Bit 2 or bit 5. */
  predicate EnabledBits(sw: int) {
    HasBit(sw, 0x0004) || HasBit(sw, 0x0020)
  }

  /** The cached statusword, or else one read after `from`, has bit 2 or bit 5, or has neither. */
  predicate Shown(trace: seq<Event>, from: nat, cached: Option<int>, enabled: bool) {
    if cached.Some? then EnabledBits(cached.value) == enabled
    else exists i :: from <= i < |trace| && trace[i].Got? && trace[i].index == 0x6041
                     && EnabledBits(trace[i].value) == enabled
  }

  lemma ShownStays(before: seq<Event>, middle: seq<Event>, after: seq<Event>, cached: Option<int>, enabled: bool)
    requires before <= middle <= after
    ensures Shown(middle, |before|, cached, enabled) ==> Shown(after, |before|, cached, enabled)
    ensures Shown(after, |middle|, cached, enabled) ==> Shown(after, |before|, cached, enabled)
  {
    if cached.None? && Shown(middle, |before|, cached, enabled) {
      var i :| |before| <= i < |middle| && middle[i].Got? && middle[i].index == 0x6041
               && EnabledBits(middle[i].value) == enabled;
      assert after[i] == middle[i];
    }
  }

  /** Why no second stop was tried: the drive is not enabled, nothing is connected, or a read was lost. */
  predicate NotTried(trace: seq<Event>, from: nat, cached: Option<int>, parts: Parts, outcome: Outcome) {
    match outcome
    case Completed => false
    case Skipped => Shown(trace, from, cached, false)
    case Failed(error) =>
      || (error == NotConnected && !parts.machine && Shown(trace, from, cached, true))
      || (error == AccessFailed && |trace| > from && trace[|trace| - 1].ReadLost?)
  }

  lemma ReasonsJoin(before: seq<Event>, middle: seq<Event>, after: seq<Event>, cached: Option<int>, parts: Parts,
                    outcome: Outcome)
    requires before <= middle <= after
    ensures Shown(after, |middle|, cached, true) ==> Shown(after, |before|, cached, true)
    ensures NotTried(after, |middle|, cached, parts, outcome) ==> NotTried(after, |before|, cached, parts, outcome)
  {
    ShownStays(before, middle, after, cached, true);
    ShownStays(before, middle, after, cached, false);
  }

  /** Only the state and the mode decide how the best-effort part ends. */
  lemma EndsAlike(d: Drive, d': Drive, quick: bool, cached: Option<int>, parts: Parts)
    requires SameStateAndMode(d, d')
    ensures forall outcome, manner ::
              EndsAs(d', quick, cached, parts, outcome, manner) ==> EndsAs(d, quick, cached, parts, outcome, manner)
  {
  }

  lemma EnabledIsShown(d: Drive)
    ensures ShowsEnabled(MakeStatusword(d)) <==> d.state in {ReadyToSwitchOn, SwitchedOn, OperationEnabled}
  {
    StatuswordBits(d);
    LowBits(MakeStatusword(d), LowSum(d));
  }
}
