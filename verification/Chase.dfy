/** Accesses while the simulated drive may be making a move: the start word, the release, and
    the polls in between and after. */
module Chase {
  import opened Prelude
  import opened Codec
  import opened Bits
  import opened DriveSpec
  import opened DriveMotion
  import opened DriveControl
  import opened Access
  import opened Bus
  import opened Pursuit
  import Controlword
  import Statusword

  predicate IsAck(sw: int) {
    HasBit(sw, Statusword.OP_MODE_SPECIFIC) || !HasBit(sw, Statusword.TARGET_REACHED)
  }

  /** Bit 10 set and bit 12 clear: no acknowledge. */
  predicate Unanswered(sw: int) {
    HasBit(sw, 0x0400) && !HasBit(sw, 0x1000)
  }

  /** One read while the simulated drive may be making the move to `target`. */
  method Poll(bus: RegisterBus, index: int, size: nat, signed: bool, ghost target: int)
    returns (r: Result<int, Failure>)
    requires bus.Valid() && SupportedSize(size)
    modifies bus`trace, bus`between, bus.sim
    ensures bus.Valid() && OnePoll(old(bus.trace), bus.trace)
    ensures bus.trace[|bus.trace| - 1] == if r.Ok? then Got(index, 0, r.value) else ReadLost(index, 0)
    ensures r.Err? ==> r.error == AccessFailed
    ensures bus.live ==> r == Seen(bus.sim.View(), index, 0, size, signed)
    ensures bus.Closed() && Pursuing(old(bus.sim.View()), target) ==>
              && Pursuing(bus.sim.View(), target) && r == Seen(bus.sim.View(), index, 0, size, signed)
              && (Acknowledged(old(bus.sim.View())) ==> Acknowledged(bus.sim.View()))
              && (Landed(old(bus.sim.View())) ==> Landed(bus.sim.View()))
  {
    r := bus.Read(index, 0, size, signed);
    if bus.Closed() && Pursuing(old(bus.sim.View()), target) {
      TicksKeepPursuing(old(bus.sim.View()), bus.between, target);
      if Landed(old(bus.sim.View())) {
        TicksKeepLanded(old(bus.sim.View()), bus.between);
      }
    }
  }

  method PollStatus(bus: RegisterBus, ghost target: int) returns (r: Result<int, Failure>)
    requires bus.Valid()
    modifies bus`trace, bus`between, bus.sim
    ensures bus.Valid() && OnePoll(old(bus.trace), bus.trace)
    ensures bus.trace[|bus.trace| - 1] == if r.Ok? then Got(STATUSWORD, 0, r.value) else ReadLost(STATUSWORD, 0)
    ensures r.Err? ==> r.error == AccessFailed
    ensures bus.Closed() && Pursuing(old(bus.sim.View()), target) ==>
              && Pursuing(bus.sim.View(), target) && r.Ok? && !HasBit(r.value, Statusword.FAULT)
              && (HasBit(r.value, Statusword.TARGET_REACHED) ==>
                    bus.sim.View().axis.position == target && Landed(bus.sim.View()))
              && (Acknowledged(old(bus.sim.View())) ==> IsAck(r.value))
  {
    r := Poll(bus, STATUSWORD, 2, false, target);
    if bus.Closed() && Pursuing(old(bus.sim.View()), target) {
      PursuitReports(bus.sim.View(), target);
    }
  }

  method PollPosition(bus: RegisterBus, ghost target: int) returns (r: Result<int, Failure>)
    requires bus.Valid()
    modifies bus`trace, bus`between, bus.sim
    ensures bus.Valid() && OnePoll(old(bus.trace), bus.trace)
    ensures bus.trace[|bus.trace| - 1] == if r.Ok? then Got(POSITION_ACTUAL, 0, r.value)
                                          else ReadLost(POSITION_ACTUAL, 0)
    ensures r.Err? ==> r.error == AccessFailed
    ensures bus.live ==> r == Seen(bus.sim.View(), POSITION_ACTUAL, 0, 4, true)
    ensures bus.Closed() && Pursuing(old(bus.sim.View()), target) ==>
              Pursuing(bus.sim.View(), target) && r == Ok(bus.sim.View().axis.position)
    ensures bus.Closed() && Pursuing(old(bus.sim.View()), target) && Landed(old(bus.sim.View())) ==>
              Landed(bus.sim.View())
  {
    r := Poll(bus, POSITION_ACTUAL, 4, true, target);
    if bus.Closed() && Pursuing(old(bus.sim.View()), target) {
      PursuitReports(bus.sim.View(), target);
    }
  }

  method RaiseSetPoint(bus: RegisterBus, setWord: int, ghost target: int) returns (r: Result<(), Failure>)
    requires bus.Valid() && IsWord(setWord) && Holds(setWord) && HasBit(setWord, Controlword.NEW_SET_POINT)
    modifies bus`trace, bus`between, bus`words, bus.sim
    ensures bus.Valid() && old(bus.trace) < bus.trace && bus.words == old(bus.words) + [setWord]
    ensures r.Err? ==> r.error == AccessFailed && bus.trace[|bus.trace| - 1] == WriteLost(CONTROLWORD, 0, setWord)
    ensures r.Ok? ==> Acknowledges(bus.trace[|bus.trace| - 1], CONTROLWORD, 0, setWord, 2, false)
    ensures TicksBetween(bus.trace, |old(bus.trace)|, |bus.trace| - 1)
    ensures bus.live ==> r.Ok?
    ensures bus.Closed() && !HasBit(setWord, Controlword.ABS_REL) && Poised(old(bus.sim.View()), target)
            && old(bus.sim.View()).mode == MODE_PROFILE_POSITION
            && old(bus.sim.View()).regs.targetPosition == target ==>
              Pursuing(bus.sim.View(), target) && Acknowledged(bus.sim.View())
  {
    hide After, WordsOf, ParamsOf;
    r := WriteWord(bus, setWord);
    if bus.Closed() && !HasBit(setWord, Controlword.ABS_REL) && Poised(old(bus.sim.View()), target)
       && old(bus.sim.View()).mode == MODE_PROFILE_POSITION && old(bus.sim.View()).regs.targetPosition == target {
      var d := Run(old(bus.sim.View()), bus.between);
      var e := bus.trace[|bus.trace| - 1];
      TicksKeepPoised(old(bus.sim.View()), bus.between, target);
      WordReachesDrive(d, e, setWord);
      EdgeStartsPursuit(Keep(d, CONTROLWORD, 0, e.raw), target, setWord, e.at);
    }
  }

  method ReleaseSetPoint(bus: RegisterBus, clearWord: int, ghost target: int) returns (r: Result<(), Failure>)
    requires bus.Valid() && IsWord(clearWord) && Holds(clearWord) && !HasBit(clearWord, Controlword.NEW_SET_POINT)
    modifies bus`trace, bus`between, bus`words, bus.sim
    ensures bus.Valid() && old(bus.trace) < bus.trace && bus.words == old(bus.words) + [clearWord]
    ensures r.Err? ==> r.error == AccessFailed && bus.trace[|bus.trace| - 1] == WriteLost(CONTROLWORD, 0, clearWord)
    ensures r.Ok? ==> Acknowledges(bus.trace[|bus.trace| - 1], CONTROLWORD, 0, clearWord, 2, false)
    ensures forall i :: |old(bus.trace)| <= i < |bus.trace| ==> Trailing(bus.trace[i], clearWord)
    ensures TicksBetween(bus.trace, |old(bus.trace)|, |bus.trace| - 1)
    ensures bus.Closed() && Pursuing(old(bus.sim.View()), target) ==> r.Ok? && Pursuing(bus.sim.View(), target)
  {
    hide After, WordsOf, ParamsOf;
    r := WriteWord(bus, clearWord);
    if bus.Closed() && Pursuing(old(bus.sim.View()), target) {
      var d := Run(old(bus.sim.View()), bus.between);
      var e := bus.trace[|bus.trace| - 1];
      TicksKeepPursuing(old(bus.sim.View()), bus.between, target);
      WordReachesDrive(d, e, clearWord);
      ReleaseKeepsPursuit(Keep(d, CONTROLWORD, 0, e.raw), target, clearWord, e.at);
    }
  }

  /** The words that start a move and take the start back. */
  method StartWords(relative: bool, immediate: bool) returns (setWord: int, clearWord: int)
    ensures (setWord, clearWord) == Controlword.PulseNewSetPoint(Controlword.PositionBase(relative, immediate))
    ensures IsWord(setWord) && Holds(setWord) && HasBit(setWord, Controlword.NEW_SET_POINT)
    ensures IsWord(clearWord) && Holds(clearWord) && !HasBit(clearWord, Controlword.NEW_SET_POINT)
    ensures HasBit(setWord, Controlword.ABS_REL) == relative
  {
    Controlword.PulseOfPositionBase(relative, immediate);
    var words := Controlword.PulseNewSetPoint(Controlword.PositionBase(relative, immediate));
    setWord, clearWord := words.0, words.1;
  }
}
