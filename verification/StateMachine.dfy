/** How a controlword without a rising edge moves the drive's state. */
module DriveControl {
  import opened Prelude
  import opened Codec
  import opened Bits
  import opened DriveSpec
  import opened DriveInvariants
  import opened Bus
  import Controlword

  predicate FlagsWithin(after: Flags, before: Flags) {
    (after.pv ==> before.pv) && (after.pp ==> before.pp) && (after.homing ==> before.homing)
  }

  /** The engine leaves everything about the device state alone and only clears motion flags. */
  predicate SameControl(d: Drive, d': Drive) {
    && d'.state == d.state && d'.fault == d.fault && d'.emergency == d.emergency
    && d'.lastControlword == d.lastControlword && d'.mode == d.mode && d'.display == d.display
    && FlagsWithin(d'.flags, d.flags)
  }

  function StateAfter(d: Drive, cw: int): State {
    var c := Decode(cw);
    if c.faultReset then SwitchOnDisabled
    else if d.emergency || c.halt then d.state
    else if c.quickStop && d.state in {OperationEnabled, QuickStopActive} then ReadyToSwitchOn
    else if d.fault then Faulted
    else Climb(d.state, c)
  }

  predicate Commanded(d: Drive, d': Drive, cw: int) {
    && d'.state == StateAfter(d, cw) && d'.fault == (d.fault && !Decode(cw).faultReset)
    && d'.emergency == d.emergency && FlagsWithin(d'.flags, d.flags)
  }

  lemma TickKeepsControl(d: Drive, now: int)
    ensures SameControl(d, Tick(d, now))
  {
  }

  lemma {:induction false} TicksKeepControl(d: Drive, steps: seq<Step>)
    requires EnvSteps(steps, false)
    ensures SameControl(d, Run(d, steps))
    decreases |steps|
  {
    if steps != [] {
      assert EnvStep(steps[0], false);
      TickKeepsControl(d, steps[0].now);
      TicksKeepControl(Apply(d, steps[0]), steps[1..]);
    }
  }

  /** A word that leaves bit 4 low moves the state as its command bits say and starts nothing. */
  lemma WordWithoutEdge(d: Drive, cw: int, now: int)
    requires !HasBit(cw, Controlword.NEW_SET_POINT)
    ensures Commanded(d, ApplyControlword(d, cw, now), cw)
  {
  }

  lemma WordReachesDrive(d: Drive, e: Event, cw: int)
    requires IsWord(cw) && Acknowledges(e, CONTROLWORD, 0, cw, 2, false)
    ensures Effect(d, e) == ApplyControlword(Keep(d, CONTROLWORD, 0, e.raw), cw, e.at)
  {
    PackThenUnpack(cw, 2, false, Little);
    assert FitTo(e.raw, 2) == e.raw;
  }

  lemma WordsArePackable(cw: int)
    ensures IsWord(cw) <==> InRange(cw, 2, false)
  {
    Pow256Values();
  }

  lemma TicksThenWord(d: Drive, steps: seq<Step>, e: Event, cw: int)
    requires EnvSteps(steps, false) && IsWord(cw) && !HasBit(cw, Controlword.NEW_SET_POINT)
    requires Acknowledges(e, CONTROLWORD, 0, cw, 2, false)
    ensures Commanded(d, Effect(Run(d, steps), e), cw)
  {
    TicksKeepControl(d, steps);
    WordReachesDrive(Run(d, steps), e, cw);
    WordWithoutEdge(Keep(Run(d, steps), CONTROLWORD, 0, e.raw), cw, e.at);
  }

  /** A live statusword read returns the statusword. */
  lemma StatuswordIsSeen(d: Drive)
    ensures Seen(d, STATUSWORD, 0, 2, false) == Ok(MakeStatusword(d))
  {
    StatuswordBits(d);
    Pow256Values();
    PackThenUnpack(MakeStatusword(d), 2, false, Little);
    var raw := ReadObject(d, STATUSWORD, 0, 2).value;
    assert FitTo(raw, 2) == raw;
  }
}

/** CiA 402 bring-up: src/dryve_d1/cia402/state_machine.py. */
module StateMachine {
  import opened Prelude
  import opened Codec
  import opened Bits
  import opened DriveSpec
  import opened DriveInvariants
  import opened DriveControl
  import opened Bus
  import Controlword
  import Statusword

  /** Documented as an invalid state that only a restart leaves. */
  const INVALID_BOOT_STATE: int := 0x2704

  predicate Acceptable(sw: int, requireRemote: bool) {
    sw != INVALID_BOOT_STATE && (requireRemote ==> HasBit(sw, Statusword.REMOTE))
  }

  /** Fault reset, shutdown with halt, shutdown, switch on, enable operation, quick stop. */
  predicate BringUpWord(w: int) {
    w == 0x0080 || w == 0x0106 || w == 0x0006 || w == 0x0007 || w == 0x000F || w == 0x000B
  }

  /** The words are the named ones, and none of them can start motion. */
  lemma BringUpWordsStartNothing(w: int)
    ensures BringUpWord(w) <==>
              w in {Controlword.FAULT_RESET, Controlword.SafeHaltWord(), Controlword.SHUTDOWN, Controlword.SWITCH_ON,
                    Controlword.ENABLE_OPERATION, Controlword.QuickStop(Controlword.ENABLE_OPERATION)}
    ensures BringUpWord(w) ==> IsWord(w) && !HasBit(w, Controlword.NEW_SET_POINT)
  {
  }

  predicate BringUpEvent(e: Event) {
    match e
    case Env(step) => EnvStep(step, true)
    case Wrote(index, _, value, raw, _) =>
      index == CONTROLWORD && BringUpWord(value) && PackInt(value, 2, false, Little) == Ok(raw)
    case WriteLost(index, _, value) => index == CONTROLWORD && BringUpWord(value)
    case Got(index, _, _) => index == STATUSWORD
    case ReadLost(index, _) => index == STATUSWORD
    case AbortPolled(_) => false
    case _ => true
  }

  /** Where each word takes the simulated drive, as a table. */
  function Moves(d: Drive, w: int): State {
    if w == 0x0080 then SwitchOnDisabled
    else if d.emergency || w == 0x0106 then d.state
    else if w == 0x000B && d.state in {OperationEnabled, QuickStopActive} then ReadyToSwitchOn
    else if d.fault then Faulted
    else if w == 0x0006 then ReadyToSwitchOn
    else if w == 0x0007 then SwitchedOn
    else if w == 0x000F then OperationEnabled
    else d.state
  }

  predicate Obeyed(d: Drive, d': Drive, w: int) {
    && d'.state == Moves(d, w) && d'.fault == (d.fault && w != 0x0080)
    && d'.emergency == d.emergency && FlagsWithin(d'.flags, d.flags)
  }

  lemma TableIsRight(d: Drive, d': Drive, w: int)
    requires BringUpWord(w) && Commanded(d, d', w)
    ensures Obeyed(d, d', w)
  {
  }

  /** Only bring-up accesses from `from` on, none of them lost and every statusword acceptable, but
      possibly the last; when `clean`, the last one too. */
  predicate Conduct(trace: seq<Event>, from: nat, requireRemote: bool, clean: bool) {
    forall i :: from <= i < |trace| ==>
      BringUpEvent(trace[i])
      && (clean || i < |trace| - 1 ==> !trace[i].ReadLost? && !trace[i].WriteLost?)
      && (trace[i].Got? && (clean || i < |trace| - 1) ==> Acceptable(trace[i].value, requireRemote))
  }

  lemma WriteIsConduct(trace: seq<Event>, before: seq<Event>, between: seq<Step>, shared: bool, requireRemote: bool)
    requires trace != [] && trace[..|trace| - 1] == before + EnvEvents(between) && EnvSteps(between, shared)
    requires BringUpEvent(trace[|trace| - 1]) && IsWrite(trace[|trace| - 1])
    ensures before < trace && Conduct(trace, |before|, requireRemote, trace[|trace| - 1].Wrote?)
  {
    forall i | |before| <= i < |trace| - 1 ensures BringUpEvent(trace[i]) && trace[i].Env? {
      assert trace[i] == trace[..|trace| - 1][i] == EnvEvents(between)[i - |before|];
      assert EnvStep(between[i - |before|], shared);
    }
    assert before <= trace[..|trace| - 1];
  }

  /** The trace ends with a poll that began at or after the deadline counted from `from`. */
  predicate LatePoll(trace: seq<Event>, from: nat, timeout: int, desired: set<Statusword.CiA402State>) {
    && from + 1 < |trace| && trace[from].Clock?
    && trace[|trace| - 1].Got? && Statusword.InferState(trace[|trace| - 1].value) !in desired
    && exists k :: from <= k < |trace| - 1 && trace[k].Clock? && trace[k].time >= trace[from].time + timeout
                   && forall j :: k < j < |trace| - 1 ==> trace[j].Env?
  }

  /** What a wait waits for, and which of the two timeouts it has. */
  datatype Goal = Goal(desired: set<Statusword.CiA402State>, reset: bool)

  const READY: set<Statusword.CiA402State> := {Statusword.ReadyToSwitchOn, Statusword.SwitchOnDisabled}
  const ON: set<Statusword.CiA402State> := {Statusword.SwitchedOn, Statusword.OperationEnabled}
  const ENABLED: set<Statusword.CiA402State> := {Statusword.OperationEnabled}

  /** The wait that follows this word. */
  function GoalOf(word: int): Option<Goal> {
    if word == 0x0006 then Some(Goal(READY, false))
    else if word == 0x0007 then Some(Goal(ON, false))
    else if word == 0x000F then Some(Goal(ENABLED, false))
    else if word == 0x0106 then Some(Goal(READY + ON, true))
    else None
  }

  /** The wait that follows this event: an acknowledged word, or a drive that is not ready. */
  function GoalAfter(e: Event): Option<Goal> {
    if e.Wrote? && e.index == CONTROLWORD then GoalOf(e.value)
    else if e.Got? && Statusword.InferState(e.value) == Statusword.NotReadyToSwitchOn then Some(Goal(READY, false))
    else None
  }

  /** Since `start` nothing was written and no desired state was read. */
  predicate Missed(trace: seq<Event>, start: nat, desired: set<Statusword.CiA402State>) {
    forall i :: start <= i < |trace| ==>
      !IsWrite(trace[i]) && (trace[i].Got? ==> Statusword.InferState(trace[i].value) !in desired)
  }

  /** Nothing was written and no statusword was read. */
  predicate Unread(trace: seq<Event>, from: nat, to: nat) {
    to <= |trace| && forall i :: from <= i < to ==> !IsWrite(trace[i]) && !trace[i].Got?
  }

  /** Since `start` the read that the trace ends with is the first of a desired state. */
  predicate FirstHit(trace: seq<Event>, start: nat, desired: set<Statusword.CiA402State>) {
    trace != [] && EndsWithRead(trace) && Statusword.InferState(LastValue(trace)) in desired
    && Missed(trace[..|trace| - 1], start, desired)
  }

  lemma HitIsFirst(soFar: seq<Event>, trace: seq<Event>, start: nat, desired: set<Statusword.CiA402State>)
    requires soFar < trace && EndsWithRead(trace) && Statusword.InferState(LastValue(trace)) in desired
    requires Missed(soFar, start, desired) && Unread(trace, |soFar|, |trace| - 1)
    ensures FirstHit(trace, start, desired)
  {
    var polled := trace[..|trace| - 1];
    forall i | start <= i < |polled|
      ensures !IsWrite(polled[i]) && (polled[i].Got? ==> Statusword.InferState(polled[i].value) !in desired)
    {
      if i < |soFar| { assert polled[i] == soFar[i]; }
    }
  }

  /** The wait that began at `start` failed: every poll missed, the last one began at or after the
      deadline, and none before it did. */
  predicate WaitFailed(trace: seq<Event>, start: nat, timeout: int, desired: set<Statusword.CiA402State>) {
    Missed(trace, start, desired) && LatePoll(trace, start, timeout, desired) && Punctual(trace, start, timeout)
  }

  /** The event before a wait that failed says what it waited for, and how long. */
  predicate WaitTimedOut(trace: seq<Event>, start: nat, stepTimeout: int, resetTimeout: int) {
    && 1 <= start <= |trace| && GoalAfter(trace[start - 1]).Some?
    && var goal := GoalAfter(trace[start - 1]).value;
       WaitFailed(trace, start, if goal.reset then resetTimeout else stepTimeout, goal.desired)
  }

  /** The trace ends with a wait that timed out, for a word written since `from`: the last one. */
  predicate WordTimedOut(trace: seq<Event>, from: nat, stepTimeout: int, resetTimeout: int) {
    exists start: nat :: from < start <= |trace| && trace[start - 1].Wrote?
                         && WaitTimedOut(trace, start, stepTimeout, resetTimeout)
  }

  /** The event at `i` does not follow a clock reading since `from`. If it is a read, then it is
      no poll of a wait, because a poll follows the reading of the time it is judged by. */
  predicate Unasked(trace: seq<Event>, from: nat, i: nat)
    requires i <= |trace|
    decreases i
  {
    i <= from || if trace[i - 1].Env? then Unasked(trace, from, i - 1) else !trace[i - 1].Clock?
  }

  /** The same, or for the first read of a drive that is not ready, outside any earlier wait. */
  predicate TimedOut(trace: seq<Event>, from: nat, stepTimeout: int, resetTimeout: int) {
    || WordTimedOut(trace, from, stepTimeout, resetTimeout)
    || exists start: nat :: from < start <= |trace| && trace[start - 1].Got? && Unasked(trace, from, start - 1)
                            && WaitTimedOut(trace, start, stepTimeout, resetTimeout)
  }

  lemma {:induction false} UnaskedStays(before: seq<Event>, after: seq<Event>, from: nat, i: nat)
    requires before <= after && i <= |before| && Unasked(before, from, i)
    ensures Unasked(after, from, i)
    decreases i
  {
    if i > from {
      assert after[i - 1] == before[i - 1];
      if before[i - 1].Env? {
        UnaskedStays(before, after, from, i - 1);
      }
    }
  }

  /** The end of a trace that goes on with ticks only. */
  lemma {:induction false} TicksAreUnasked(before: seq<Event>, trace: seq<Event>, from: nat, i: nat)
    requires from <= |before| <= i <= |trace| && before <= trace
    requires forall j :: |before| <= j < i ==> trace[j].Env?
    requires from == |before| || !(before[|before| - 1].Env? || before[|before| - 1].Clock?)
    ensures Unasked(trace, from, i)
    decreases i
  {
    if i > |before| {
      TicksAreUnasked(before, trace, from, i - 1);
    } else if i > from {
      assert trace[i - 1] == before[i - 1];
    }
  }

  /** A read made without a look at the clock. */
  lemma ReadIsUnasked(before: seq<Event>, between: seq<Step>, after: seq<Event>, from: nat)
    requires from <= |before| && after != [] && after[..|after| - 1] == before + EnvEvents(between)
    requires from == |before| || before[|before| - 1].Got?
    ensures Unasked(after, from, |after| - 1)
  {
    assert before <= after[..|after| - 1];
    forall j | |before| <= j < |after| - 1 ensures after[j].Env? {
      assert after[j] == (before + EnvEvents(between))[j];
    }
    TicksAreUnasked(before, after, from, |after| - 1);
  }

  lemma PollWasLate(trace: seq<Event>, from: nat, k: nat, between: seq<Step>, timeout: int,
                    desired: set<Statusword.CiA402State>)
    requires from <= k < |trace| - 1 && trace[from].Clock? && trace[k].Clock?
    requires trace[k].time >= trace[from].time + timeout
    requires trace[|trace| - 1].Got? && Statusword.InferState(trace[|trace| - 1].value) !in desired
    requires trace[..|trace| - 1] == trace[..k + 1] + EnvEvents(between)
    ensures LatePoll(trace, from, timeout, desired)
  {
    forall j | k < j < |trace| - 1 ensures trace[j].Env? {
      assert trace[j] == trace[..|trace| - 1][j] == EnvEvents(between)[j - k - 1];
    }
  }

  /** A poll that misses adds nothing but a miss. */
  lemma PollMissed(before: seq<Event>, between: seq<Step>, after: seq<Event>, from: nat,
                   desired: set<Statusword.CiA402State>)
    requires from <= |before| && Missed(before, from, desired)
    requires after != [] && after[..|after| - 1] == before + EnvEvents(between)
    requires after[|after| - 1].Got? && Statusword.InferState(after[|after| - 1].value) !in desired
    ensures Missed(after, from, desired)
  {
    forall i | from <= i < |after| - 1
      ensures !IsWrite(after[i]) && (after[i].Got? ==> Statusword.InferState(after[i].value) !in desired)
    {
      assert after[i] == (before + EnvEvents(between))[i];
    }
  }

  /** A statusword was read with bits 0, 1, 2 and 5 set, and bits 3 and 6 clear. */
  predicate ReadEnabled(trace: seq<Event>, from: nat) {
    exists i :: from <= i < |trace| && trace[i].Got? && Statusword.ShowsEnabled(trace[i].value)
  }

  /** What each wait is content with, by the bits of the statusword. */
  lemma GoalsByBits(sw: int)
    ensures Statusword.InferState(sw) in READY <==>
              Statusword.Pattern(sw, true, false, false, false) || Statusword.Pattern(sw, false, false, false, true)
    ensures Statusword.InferState(sw) in ON <==>
              Statusword.Pattern(sw, true, true, false, false) || Statusword.ShowsEnabled(sw)
    ensures Statusword.InferState(sw) in ENABLED <==> Statusword.ShowsEnabled(sw)
  {
    Statusword.StatesByBits(sw);
  }

  /** What the last event says about a failure: a lost access, the invalid word, REMOTE missing
      although it is required or a fault shows, or bits that no branch of the bring-up takes. */
  predicate Cause(trace: seq<Event>, requireRemote: bool, failure: Failure) {
    && trace != []
    && var last := trace[|trace| - 1];
       && (failure == AccessFailed ==> last.ReadLost? || last.WriteLost?)
       && (failure == InvalidBootState ==> last.Got? && last.value == 0x2704)
       && (failure == RemoteDisabled ==> && last.Got? && !HasBit(last.value, 0x0200)
                                         && (requireRemote || HasBit(last.value, 0x0008)))
       && (failure == Unhandled ==> last.Got? && !Handled(last.value))
  }

  /** Switched on, enabled or in a quick stop. */
  predicate Handled(sw: int) {
    Statusword.Pattern(sw, true, true, false, false) || Statusword.ShowsEnabled(sw) || Statusword.ShowsQuickStop(sw)
  }

  /** The trace up to each statusword by which a bring-up chose its path. */
  datatype Choices = Choices(first: seq<Event>, ready: seq<Event>, last: seq<Event>)

  predicate EndsWithRead(trace: seq<Event>) {
    trace != [] && trace[|trace| - 1].Got?
  }

  /** The statusword at the end of the trace. */
  function LastValue(trace: seq<Event>): int
    requires EndsWithRead(trace)
  {
    trace[|trace| - 1].value
  }

  /** Each step was taken by the bits of a statusword, and its words were written next. */
  predicate ChosenByBits(before: seq<Event>, trace: seq<Event>, path: Path, at: Choices) {
    && before <= at.first && WordsOf(at.first) == WordsOf(before) + (if path.reset then RESET_WORDS else [])
    && StepsByBits(trace, path, at)
  }

  predicate StepsByBits(trace: seq<Event>, path: Path, at: Choices) {
    && at.first <= at.ready <= at.last && EndsWithRead(at.first) && EndsWithRead(at.ready)
    && (path.shutdown <==> Statusword.Pattern(LastValue(at.first), false, false, false, true))
    && WordsOf(at.ready) == WordsOf(at.first) + (if path.shutdown then [0x0006] else [])
    && (path.switchOn <==> Statusword.Pattern(LastValue(at.ready), true, false, false, false))
    && WordsOf(at.last) == WordsOf(at.ready) + (if path.switchOn then [0x0007] else [])
    && (Statusword.Pattern(LastValue(at.first), false, false, false, false) ==> Awaited(at.ready, |at.first| - 1))
    && LastChoice(trace, at.last, path.restart)
  }

  /** The last step: out of a quick stop, or on from switched on or enabled. */
  predicate LastChoice(trace: seq<Event>, last: seq<Event>, restart: bool) {
    && last <= trace && EndsWithRead(last)
    && (if restart then Statusword.ShowsQuickStop(LastValue(last))
        else Statusword.Pattern(LastValue(last), true, true, false, false) || Statusword.ShowsEnabled(LastValue(last)))
    && WordsOf(trace) == WordsOf(last) + LastWords(restart)
  }

  /** The words of a fault reset. */
  const RESET_WORDS: seq<int> := [0x0080, 0x0006, 0x0106]

  /** A statusword with a fault and with REMOTE was read. */
  predicate ResetWasDue(trace: seq<Event>, from: nat) {
    exists i :: from <= i < |trace| && trace[i].Got?
                && HasBit(trace[i].value, Statusword.FAULT) && HasBit(trace[i].value, Statusword.REMOTE)
  }

  /** The quick stop was read, or two seconds of polls have missed it. */
  predicate QuickStopWaited(trace: seq<Event>, from: nat) {
    || (trace != [] && trace[|trace| - 1].Got? && Statusword.ShowsQuickStop(trace[|trace| - 1].value))
    || exists start: nat :: from < start <= |trace| && trace[start - 1].Wrote?
                            && WaitFailed(trace, start, 2_000_000, {Statusword.QuickStopActive})
  }

  /** A statusword that is not ready was read at `i`, and a wait followed that ended with the first
      one that is ready to switch on or disabled, at `j`; then one more was read. */
  predicate AwaitedAt(trace: seq<Event>, i: nat, j: nat) {
    && i < j < |trace| - 1 && trace[i].Got? && trace[i + 1].Clock? && EndsWithRead(trace)
    && Statusword.Pattern(trace[i].value, false, false, false, false)
    && trace[j].Got? && GoesOn(trace[j].value)
    && forall k :: i < k < |trace| - 1 && k != j && trace[k].Got? ==> k < j && !GoesOn(trace[k].value)
  }

  predicate Awaited(trace: seq<Event>, from: nat) {
    exists i, j :: from <= i < j < |trace| && AwaitedAt(trace, i, j)
  }

  /** Ready to switch on, or disabled. */
  predicate GoesOn(sw: int) {
    Statusword.Pattern(sw, true, false, false, false) || Statusword.Pattern(sw, false, false, false, true)
  }

  lemma WaitWasNeeded(before: seq<Event>, waited: seq<Event>, after: seq<Event>)
    requires before < waited < after && EndsWithRead(before) && waited[|before|].Clock?
    requires Statusword.InferState(LastValue(before)) == Statusword.NotReadyToSwitchOn
    requires FirstHit(waited, |before|, READY) && EndsWithRead(after) && Unread(after, |waited|, |after| - 1)
    ensures Awaited(after, |before| - 1)
  {
    Statusword.StatesByBits(LastValue(before));
    var polled := waited[..|waited| - 1];
    forall k | |before| - 1 < k < |after| - 1 && k != |waited| - 1 && after[k].Got?
      ensures k < |waited| - 1 && !GoesOn(after[k].value)
    {
      assert k < |waited| && after[k] == polled[k];
      GoalsByBits(after[k].value);
    }
    GoalsByBits(LastValue(waited));
    assert after[|before| - 1] == before[|before| - 1] && after[|before|] == waited[|before|];
    assert after[|waited| - 1] == waited[|waited| - 1];
    assert AwaitedAt(after, |before| - 1, |waited| - 1);
  }

  /** A bring-up ends without a branch only on bits that have none: after a switch-on if the drive
      is still ready, after a wait if it was never switched on and is still not ready. */
  predicate Refused(before: seq<Event>, after: seq<Event>, path: Path, from: nat) {
    && EndsWithRead(after) && !Handled(LastValue(after)) && WordsOf(after) == WordsOf(before) + path.Approach()
    && (Statusword.Pattern(LastValue(after), true, false, false, false) ==> path.switchOn)
    && (Statusword.Pattern(LastValue(after), false, false, false, false) && !path.switchOn ==> Awaited(after, from))
  }

  /** Which steps a bring-up took. */
  datatype Path = Path(reset: bool, shutdown: bool, switchOn: bool, restart: bool) {
    /** The words up to the last step. */
    function Approach(): seq<int> {
      (if reset then RESET_WORDS else []) + (if shutdown then [0x0006] else []) + (if switchOn then [0x0007] else [])
    }

    /** The words these steps write. */
    function Words(): seq<int> {
      Approach() + LastWords(restart)
    }
  }

  function LastWords(restart: bool): seq<int> {
    if restart then [0x0006, 0x0007, 0x000F] else [0x000F]
  }

  class CiA402StateMachine {
    const bus: RegisterBus
    const pollInterval: nat
    const stepTimeout: int
    const faultResetTimeout: int
    const requireRemote: bool

    constructor (bus: RegisterBus, pollInterval: nat, stepTimeout: int, faultResetTimeout: int, requireRemote: bool)
      ensures this.bus == bus && this.pollInterval == pollInterval && this.stepTimeout == stepTimeout
      ensures this.faultResetTimeout == faultResetTimeout && this.requireRemote == requireRemote
    {
      this.bus, this.pollInterval, this.stepTimeout := bus, pollInterval, stepTimeout;
      this.faultResetTimeout, this.requireRemote := faultResetTimeout, requireRemote;
    }

    method ReadStatusword() returns (r: Result<int, Failure>)
      requires bus.Valid()
      modifies bus`trace, bus`between, bus.sim
      ensures bus.Valid() && old(bus.trace) < bus.trace
      ensures Conduct(bus.trace, |old(bus.trace)|, requireRemote, r.Ok?)
      ensures r.Ok? ==> bus.trace == old(bus.trace) + EnvEvents(bus.between) + [Got(STATUSWORD, 0, r.value)]
      ensures forall i :: |old(bus.trace)| <= i < |bus.trace| ==> !bus.trace[i].Clock?
      ensures r.Ok? ==> Acceptable(r.value, requireRemote)
      ensures r.Err? ==> r.error in {AccessFailed, InvalidBootState, RemoteDisabled}
                         && Cause(bus.trace, requireRemote, r.error)
      ensures bus.Closed() ==>
                SameControl(old(bus.sim.View()), bus.sim.View()) && r == Ok(MakeStatusword(bus.sim.View()))
    {
      hide After, WordsOf, ParamsOf;
      var sw :- bus.Read(STATUSWORD, 0, 2, false);
      if bus.Closed() {
        TicksKeepControl(old(bus.sim.View()), bus.between);
        StatuswordIsSeen(bus.sim.View());
        SimulatorIsAcceptable(bus.sim.View());
      }
      if sw == INVALID_BOOT_STATE {
        return Err(InvalidBootState);
      }
      if requireRemote && !HasBit(sw, Statusword.REMOTE) {
        return Err(RemoteDisabled);
      }
      return Ok(sw);
    }

    method CurrentState() returns (r: Result<Statusword.CiA402State, Failure>)
      requires bus.Valid()
      modifies bus`trace, bus`between, bus.sim
      ensures bus.Valid() && old(bus.trace) < bus.trace
      ensures Conduct(bus.trace, |old(bus.trace)|, requireRemote, r.Ok?)
      ensures r.Ok? ==> bus.trace[|bus.trace| - 1].Got?
                        && Statusword.InferState(bus.trace[|bus.trace| - 1].value) == r.value
                        && bus.trace[..|bus.trace| - 1] == old(bus.trace) + EnvEvents(bus.between)
      ensures forall i :: |old(bus.trace)| <= i < |bus.trace| ==> !bus.trace[i].Clock?
      ensures r.Err? ==> r.error in {AccessFailed, InvalidBootState, RemoteDisabled}
                         && Cause(bus.trace, requireRemote, r.error)
      ensures bus.Closed() ==> SameControl(old(bus.sim.View()), bus.sim.View())
                               && r == Ok(Reported(bus.sim.View().state, bus.sim.View().fault))
    {
      var sw :- ReadStatusword();
      if bus.Closed() {
        StateReadsBack(bus.sim.View());
      }
      return Ok(Statusword.InferState(sw));
    }

    /** Any word, masked to 16 bits. */
    method WriteControlword(value: int) returns (r: Result<(), Failure>)
      requires bus.Valid()
      modifies bus`trace, bus`between, bus`words, bus.sim
      ensures bus.Valid() && EnvSteps(bus.between, bus.shared) && bus.words == old(bus.words) + [value % 0x1_0000]
      ensures bus.trace != [] && bus.trace[..|bus.trace| - 1] == old(bus.trace) + EnvEvents(bus.between)
      ensures if r.Ok? then Acknowledges(bus.trace[|bus.trace| - 1], CONTROLWORD, 0, value % 0x1_0000, 2, false)
              else bus.trace[|bus.trace| - 1] == WriteLost(CONTROLWORD, 0, value % 0x1_0000)
      ensures r.Err? ==> r.error == AccessFailed
      ensures bus.live ==>
                r.Ok? && bus.sim.View() == Effect(Run(old(bus.sim.View()), bus.between), bus.trace[|bus.trace| - 1])
    {
      hide After, WordsOf, ParamsOf;
      WordsArePackable(value % 0x1_0000);
      r := bus.WriteControlword(value % 0x1_0000);
    }

    /** One of the words of the state machine. */
    method Command(word: int) returns (r: Result<(), Failure>)
      requires bus.Valid() && BringUpWord(word)
      modifies bus`trace, bus`between, bus`words, bus.sim
      ensures bus.Valid() && old(bus.trace) < bus.trace
      ensures Conduct(bus.trace, |old(bus.trace)|, requireRemote, r.Ok?)
      ensures bus.words == old(bus.words) + [word]
      ensures r.Ok? ==> Acknowledges(bus.trace[|bus.trace| - 1], CONTROLWORD, 0, word, 2, false)
      ensures r.Err? ==> r.error == AccessFailed && Cause(bus.trace, requireRemote, r.error)
      ensures bus.Closed() ==> r.Ok? && Obeyed(old(bus.sim.View()), bus.sim.View(), word)
    {
      hide After, WordsOf, ParamsOf, Obeyed, Commanded;
      BringUpWordsStartNothing(word);
      r := WriteControlword(word);
      WriteIsConduct(bus.trace, old(bus.trace), bus.between, bus.shared, requireRemote);
      if bus.Closed() {
        TicksThenWord(old(bus.sim.View()), bus.between, bus.trace[|bus.trace| - 1], word);
        TableIsRight(old(bus.sim.View()), bus.sim.View(), word);
      }
    }

    /** One round of the wait: the time is taken before the poll. `from` is where the wait began. */
    method WaitRound(desired: set<Statusword.CiA402State>, timeout: int, deadline: int, ghost from: nat)
      returns (verdict: Option<Result<Statusword.CiA402State, Failure>>)
      requires bus.Valid() && from < |bus.trace| && bus.trace[from].Clock? && deadline == bus.trace[from].time + timeout
      modifies bus`trace, bus`between, bus`now, bus.sim
      ensures bus.Valid() && old(bus.trace) < bus.trace
      ensures Conduct(bus.trace, |old(bus.trace)|, requireRemote,
                      verdict.None? || verdict.value.Ok? || verdict.value.error == StateTimeout)
      ensures bus.now >= old(bus.now) && (verdict.None? ==> bus.now < deadline)
      ensures LooksWithin(bus.trace, |old(bus.trace)|, old(bus.now), bus.now)
      ensures verdict.Some? && verdict.value.Ok? ==>
                && verdict.value.value in desired && bus.trace[|bus.trace| - 1].Got?
                && Statusword.InferState(bus.trace[|bus.trace| - 1].value) == verdict.value.value
                && Unread(bus.trace, |old(bus.trace)|, |bus.trace| - 1)
      ensures verdict.Some? && verdict.value.Err? ==>
                && verdict.value.error in {AccessFailed, InvalidBootState, RemoteDisabled, StateTimeout}
                && Cause(bus.trace, requireRemote, verdict.value.error)
      ensures bus.trace[|old(bus.trace)|].Clock? && OneLook(bus.trace, |old(bus.trace)|, |old(bus.trace)|)
      ensures verdict.None? ==> bus.trace[|old(bus.trace)|].time < deadline
      ensures verdict.Some? && verdict.value.Err? && verdict.value.error == StateTimeout ==>
                LatePoll(bus.trace, from, timeout, desired)
      ensures verdict.None? || (verdict.value.Err? && verdict.value.error == StateTimeout) ==>
                Missed(bus.trace, |old(bus.trace)|, desired)
      ensures bus.Closed() ==> SameControl(old(bus.sim.View()), bus.sim.View())
      ensures bus.Closed() ==>
                var seen := Reported(old(bus.sim.View()).state, old(bus.sim.View()).fault);
                if seen in desired then verdict == Some(Ok(seen))
                else verdict.None? || (verdict.value.Err? && verdict.value.error == StateTimeout)
    {
      var loopTime := bus.Monotonic();
      ghost var k := |bus.trace| - 1;
      var state := CurrentState();
      if state.Err? {
        return Some(Err(state.error));
      }
      if state.value in desired {
        return Some(Ok(state.value));
      }
      PollMissed(old(bus.trace) + [Clock(loopTime)], bus.between, bus.trace, |old(bus.trace)|, desired);
      if loopTime >= deadline {
        PollWasLate(bus.trace, from, k, bus.between, timeout, desired);
        return Some(Err(StateTimeout));
      }
      return None;
    }

    method WaitForStates(desired: set<Statusword.CiA402State>, timeout: int)
      returns (r: Result<Statusword.CiA402State, Failure>)
      requires bus.Valid()
      modifies bus`trace, bus`between, bus`now, bus.sim
      ensures bus.Valid() && old(bus.trace) < bus.trace
      ensures Conduct(bus.trace, |old(bus.trace)|, requireRemote, r.Ok? || r.error == StateTimeout)
      ensures r.Ok? ==> r.value in desired && bus.trace[|bus.trace| - 1].Got?
                        && Statusword.InferState(bus.trace[|bus.trace| - 1].value) == r.value
                        && FirstHit(bus.trace, |old(bus.trace)|, desired)
      ensures r.Err? ==> r.error in {AccessFailed, InvalidBootState, RemoteDisabled, StateTimeout}
                         && Cause(bus.trace, requireRemote, r.error)
      ensures Punctual(bus.trace, |old(bus.trace)|, timeout)
      ensures Paced(bus.trace, |old(bus.trace)|, pollInterval)
      ensures r == Err(StateTimeout) ==> WaitFailed(bus.trace, |old(bus.trace)|, timeout, desired)
      ensures bus.Closed() ==> SameControl(old(bus.sim.View()), bus.sim.View())
      ensures bus.Closed() ==> var seen := Reported(old(bus.sim.View()).state, old(bus.sim.View()).fault);
                               r == if seen in desired then Ok(seen) else Err(StateTimeout)
    {
      var started := bus.Monotonic();
      var deadline := started + timeout;
      while true
        invariant bus.Valid() && old(bus.trace) < bus.trace && bus.trace[|old(bus.trace)|] == Clock(started)
        invariant Conduct(bus.trace, |old(bus.trace)|, requireRemote, true)
        invariant Missed(bus.trace, |old(bus.trace)|, desired) && Early(bus.trace, |old(bus.trace)|, deadline)
        invariant bus.Closed() ==> SameControl(old(bus.sim.View()), bus.sim.View())
        invariant Rested(bus.trace, |old(bus.trace)|, pollInterval, bus.now)
        decreases deadline - bus.now
      {
        ghost var soFar, was := bus.trace, bus.now;
        var verdict := WaitRound(desired, timeout, deadline, |old(bus.trace)|);
        LookIsPaced(soFar, bus.trace, |old(bus.trace)|, pollInterval, |soFar|, was, bus.now);
        if verdict.Some? {
          LookIsPunctual(soFar, bus.trace, |old(bus.trace)|, timeout, |soFar|);
          if verdict.value.Ok? {
            HitIsFirst(soFar, bus.trace, |old(bus.trace)|, desired);
          }
          return verdict.value;
        }
        LookStaysEarly(soFar, bus.trace, |old(bus.trace)|, deadline, |soFar|);
        bus.Sleep(pollInterval);
      }
    }

    method Transition(word: int, desired: set<Statusword.CiA402State>) returns (r: Result<(), Failure>)
      requires bus.Valid() && BringUpWord(word) && GoalOf(word) == Some(Goal(desired, false))
      modifies bus`trace, bus`between, bus`words, bus`now, bus.sim
      ensures bus.Valid() && old(bus.trace) < bus.trace && bus.words == old(bus.words) + [word]
      ensures Conduct(bus.trace, |old(bus.trace)|, requireRemote, r.Ok? || r.error == StateTimeout)
      ensures r.Err? ==> r.error in {AccessFailed, InvalidBootState, RemoteDisabled, StateTimeout}
                         && Cause(bus.trace, requireRemote, r.error)
      ensures r.Ok? ==>
                bus.trace[|bus.trace| - 1].Got? && Statusword.InferState(bus.trace[|bus.trace| - 1].value) in desired
      ensures r == Err(StateTimeout) ==> WordTimedOut(bus.trace, |old(bus.trace)|, stepTimeout, faultResetTimeout)
      ensures bus.Closed() ==> Obeyed(old(bus.sim.View()), bus.sim.View(), word)
      ensures bus.Closed() ==> r == if Reported(bus.sim.View().state, bus.sim.View().fault) in desired
                                    then Ok(()) else Err(StateTimeout)
    {
      var _ :- Command(word);
      ghost var from := |bus.trace|;
      var waited := WaitForStates(desired, stepTimeout);
      assert GoalAfter(bus.trace[from - 1]) == Some(Goal(desired, false));
      if waited.Err? {
        assert waited.error == StateTimeout ==> WaitTimedOut(bus.trace, from, stepTimeout, faultResetTimeout);
        return Err(waited.error);
      }
      return Ok(());
    }

    /** The reset pulse, then shutdown, then HALT so that nothing moves when enabled later. */
    method PulseReset() returns (r: Result<(), Failure>)
      requires bus.Valid()
      modifies bus`trace, bus`between, bus`words, bus`now, bus.sim
      ensures bus.Valid() && old(bus.trace) < bus.trace
      ensures Conduct(bus.trace, |old(bus.trace)|, requireRemote, r.Ok?)
      ensures r.Err? ==> r.error == AccessFailed && Cause(bus.trace, requireRemote, r.error)
      ensures r.Ok? ==> Acknowledges(bus.trace[|bus.trace| - 1], CONTROLWORD, 0, 0x0106, 2, false)
      ensures r.Ok? ==>
                bus.words == old(bus.words) + RESET_WORDS && bus.now >= old(bus.now) + Max(100_000, pollInterval)
      ensures bus.Closed() ==> r.Ok? && ResetDone(old(bus.sim.View()), bus.sim.View())
    {
      var _ :- Command(0x0080);
      bus.Sleep(Max(100_000, pollInterval));
      var _ :- Command(0x0006);
      var _ :- Command(0x0106);
      return Ok(());
    }

    /** Pulse the reset bit, then wait for a state without a fault. */
    method ResetAndWait() returns (r: Result<(), Failure>)
      requires bus.Valid()
      modifies bus`trace, bus`between, bus`words, bus`now, bus.sim
      ensures bus.Valid() && old(bus.trace) < bus.trace
      ensures Conduct(bus.trace, |old(bus.trace)|, requireRemote, r.Ok? || r.error == StateTimeout)
      ensures r.Err? ==> r.error in {AccessFailed, InvalidBootState, RemoteDisabled, StateTimeout}
                         && Cause(bus.trace, requireRemote, r.error)
      ensures r == Err(StateTimeout) ==> WordTimedOut(bus.trace, |old(bus.trace)|, stepTimeout, faultResetTimeout)
      ensures r.Ok? ==>
                && bus.words == old(bus.words) + RESET_WORDS && bus.trace[|bus.trace| - 1].Got?
                && Statusword.InferState(bus.trace[|bus.trace| - 1].value) in READY + ON
      ensures bus.Closed() ==> r.Ok? && ResetDone(old(bus.sim.View()), bus.sim.View())
    {
      var _ :- PulseReset();
      ghost var from := |bus.trace|;
      var waited := WaitForStates(READY + ON, faultResetTimeout);
      if waited.Err? {
        assert waited.error == StateTimeout ==> WaitTimedOut(bus.trace, from, stepTimeout, faultResetTimeout);
        return Err(waited.error);
      }
      return Ok(());
    }

    method FaultReset() returns (r: Result<(), Failure>)
      requires bus.Valid()
      modifies bus`trace, bus`between, bus`words, bus`now, bus.sim
      ensures bus.Valid() && old(bus.trace) < bus.trace
      ensures Conduct(bus.trace, |old(bus.trace)|, requireRemote, r.Ok? || r.error == StateTimeout)
      ensures r.Err? ==> r.error in {AccessFailed, InvalidBootState, RemoteDisabled, StateTimeout}
                         && Cause(bus.trace, requireRemote, r.error)
      ensures r == Err(StateTimeout) ==> WordTimedOut(bus.trace, |old(bus.trace)|, stepTimeout, faultResetTimeout)
      ensures bus.words != old(bus.words) ==> ResetWasDue(bus.trace, |old(bus.trace)|)
      ensures r.Ok? ==> bus.trace[|bus.trace| - 1].Got?
      ensures r.Ok? && bus.words != old(bus.words) ==>
                Statusword.InferState(bus.trace[|bus.trace| - 1].value) in READY + ON
      ensures r.Ok? ==> bus.words == old(bus.words) || bus.words == old(bus.words) + RESET_WORDS
      ensures r.Ok? && bus.words == old(bus.words) ==> !HasBit(bus.trace[|bus.trace| - 1].value, 0x0008)
      ensures bus.Closed() && ShowsFault(old(bus.sim.View())) ==>
                bus.words != old(bus.words) && r.Ok? && ResetDone(old(bus.sim.View()), bus.sim.View())
      ensures bus.Closed() && !ShowsFault(old(bus.sim.View())) ==>
                bus.words == old(bus.words) && r.Ok? && SameControl(old(bus.sim.View()), bus.sim.View())
    {
      var sw :- ReadStatusword();
      if bus.Closed() {
        StatuswordBits(bus.sim.View());
      }
      if !HasBit(sw, Statusword.FAULT) {
        return Ok(());
      }
      if !HasBit(sw, Statusword.REMOTE) {
        return Err(RemoteDisabled);
      }
      assert bus.trace[|bus.trace| - 1] == Got(STATUSWORD, 0, sw);
      assert ResetWasDue(bus.trace, |old(bus.trace)|);
      r := ResetAndWait();
    }

    method Shutdown() returns (r: Result<(), Failure>)
      requires bus.Valid()
      modifies bus`trace, bus`between, bus`words, bus`now, bus.sim
      ensures StepResult(r, old(bus.trace), bus.trace) && bus.Valid() && bus.words == old(bus.words) + [0x0006]
      ensures r.Ok? ==> bus.trace != [] && bus.trace[|bus.trace| - 1].Got?
                        && Statusword.InferState(bus.trace[|bus.trace| - 1].value) in READY
      ensures bus.Closed() ==> Obeyed(old(bus.sim.View()), bus.sim.View(), 0x0006)
      ensures bus.Closed() ==> (r.Ok? <==> Reported(bus.sim.View().state, bus.sim.View().fault) in READY)
    {
      r := Transition(0x0006, READY);
    }

    method SwitchOn() returns (r: Result<(), Failure>)
      requires bus.Valid()
      modifies bus`trace, bus`between, bus`words, bus`now, bus.sim
      ensures StepResult(r, old(bus.trace), bus.trace) && bus.Valid() && bus.words == old(bus.words) + [0x0007]
      ensures r.Ok? ==> bus.trace != [] && bus.trace[|bus.trace| - 1].Got?
                        && Statusword.InferState(bus.trace[|bus.trace| - 1].value) in ON
      ensures bus.Closed() ==> Obeyed(old(bus.sim.View()), bus.sim.View(), 0x0007)
      ensures bus.Closed() ==> (r.Ok? <==> Reported(bus.sim.View().state, bus.sim.View().fault) in ON)
    {
      r := Transition(0x0007, ON);
    }

    method EnableOperation() returns (r: Result<(), Failure>)
      requires bus.Valid()
      modifies bus`trace, bus`between, bus`words, bus`now, bus.sim
      ensures StepResult(r, old(bus.trace), bus.trace) && bus.Valid() && bus.words == old(bus.words) + [0x000F]
      ensures r.Ok? ==> ReadEnabled(bus.trace, |old(bus.trace)|)
      ensures bus.Closed() ==> Obeyed(old(bus.sim.View()), bus.sim.View(), 0x000F)
      ensures bus.Closed() ==>
                (r.Ok? <==> Reported(bus.sim.View().state, bus.sim.View().fault) == Statusword.OperationEnabled)
    {
      r := Transition(0x000F, ENABLED);
      if r.Ok? {
        Statusword.StatesByBits(bus.trace[|bus.trace| - 1].value);
      }
    }

    /** How every part of the bring-up ends, whatever the drive does. */
    ghost predicate Ends(r: Result<(), Failure>, before: seq<Event>, after: seq<Event>) {
      && before <= after
      && Conduct(after, |before|, requireRemote, r.Ok? || r.error in {StateTimeout, Unhandled})
      && (r.Err? ==> && r.error in {AccessFailed, InvalidBootState, RemoteDisabled, StateTimeout, Unhandled}
                     && Cause(after, requireRemote, r.error))
    }

    /** A part that waits for nothing but its own words. */
    ghost predicate StepResult(r: Result<(), Failure>, before: seq<Event>, after: seq<Event>) {
      && r != Err(Unhandled) && LastResult(r, before, after)
    }

    /** The last part, which may find no branch. */
    ghost predicate LastResult(r: Result<(), Failure>, before: seq<Event>, after: seq<Event>) {
      && Ends(r, before, after)
      && (r == Err(StateTimeout) ==> WordTimedOut(after, |before|, stepTimeout, faultResetTimeout))
    }

    /** A part of a bring-up that began at `from`. */
    ghost predicate BringUpResult(r: Result<(), Failure>, from: nat, before: seq<Event>, after: seq<Event>) {
      && Ends(r, before, after)
      && (r == Err(StateTimeout) ==> TimedOut(after, from, stepTimeout, faultResetTimeout))
    }

    /** The last event is a read of this state, made without a look at the clock. */
    ghost predicate JustReadSince(from: nat, state: Statusword.CiA402State)
      reads bus
    {
      JustRead(bus.trace, state) && from < |bus.trace| && Unasked(bus.trace, from, |bus.trace| - 1)
    }

    /** Against any drive: a normal return means that the words written are those of a path
        through the state machine, the last of them 0x000F, and that OPERATION_ENABLED was read;
        only acceptable statuswords were acted on; only words of the state machine were written,
        so none with bit 4; and a timeout means that a poll begun at or after the deadline failed.
        On the simulator, alone: with the emergency off it always succeeds, from every state,
        faults included, by the one path that state asks for, and turns no motion flag on; with
        the emergency on it succeeds exactly when the drive was already enabled and fault-free. */
    method RunToOperationEnabled() returns (r: Result<(), Failure>, ghost path: Path, ghost at: Choices)
      requires bus.Valid()
      modifies bus`trace, bus`between, bus`words, bus`now, bus.sim
      ensures bus.Valid() && BringUpResult(r, |old(bus.trace)|, old(bus.trace), bus.trace)
      ensures r.Ok? ==> && bus.words == old(bus.words) + path.Words() && ReadEnabled(bus.trace, |old(bus.trace)|)
                        && ChosenByBits(old(bus.trace), bus.trace, path, at)
      ensures r == Err(Unhandled) ==> Refused(old(bus.trace), bus.trace, path, |old(bus.trace)|)
      ensures bus.Closed() && !old(bus.sim.View()).emergency ==>
                && r.Ok? && bus.sim.View().state == OperationEnabled && !bus.sim.View().fault
                && path == PathFrom(old(bus.sim.View()))
      ensures bus.Closed() ==> FlagsWithin(bus.sim.View().flags, old(bus.sim.View()).flags)
      ensures bus.Closed() && old(bus.sim.View()).emergency ==>
                (r.Ok? <==> old(bus.sim.View()).state == OperationEnabled && !old(bus.sim.View()).fault)
    {
      path, at := Path(false, false, false, false), Choices([], [], []);
      var st :- StateWithoutFault();
      ghost var reset, words := bus.words != old(bus.words), bus.words;
      r, path, at := RunFrom(st, |old(bus.trace)|);
      path := path.(reset := reset);
      PathExtends(old(bus.words), words, bus.words, path);
    }

    /** Reset the fault that was seen, then look again. */
    method StateAfterReset(ghost from: nat) returns (r: Result<Statusword.CiA402State, Failure>)
      requires bus.Valid() && from <= |bus.trace| && (bus.Closed() ==> ShowsFault(bus.sim.View()))
      modifies bus`trace, bus`between, bus`words, bus`now, bus.sim
      ensures bus.Valid() && old(bus.trace) < bus.trace
      ensures StepResult(if r.Ok? then Ok(()) else Err(r.error), old(bus.trace), bus.trace)
      ensures r.Ok? ==> JustReadSince(from, r.value)
      ensures r.Ok? ==> bus.words == old(bus.words) || bus.words == old(bus.words) + RESET_WORDS
      ensures bus.Closed() ==> && bus.words != old(bus.words) && r == Ok(StateOf(bus.sim.View().state))
                               && ResetDone(old(bus.sim.View()), bus.sim.View())
    {
      var _ :- FaultReset();
      ghost var reset := bus.trace;
      r := CurrentState();
      if r.Ok? {
        ReadIsUnasked(reset, bus.between, bus.trace, from);
      }
    }

    /** The state just read, after a fault reset if it showed a fault. */
    method StateWithoutFault() returns (r: Result<Statusword.CiA402State, Failure>)
      requires bus.Valid()
      modifies bus`trace, bus`between, bus`words, bus`now, bus.sim
      ensures bus.Valid() && old(bus.trace) < bus.trace
      ensures StepResult(if r.Ok? then Ok(()) else Err(r.error), old(bus.trace), bus.trace)
      ensures r.Ok? ==> JustReadSince(|old(bus.trace)|, r.value)
      ensures r.Ok? ==> bus.words == old(bus.words) || bus.words == old(bus.words) + RESET_WORDS
      ensures bus.Closed() && r.Ok? ==> (bus.words != old(bus.words) <==> ShowsFault(old(bus.sim.View())))
      ensures bus.Closed() ==> r == Ok(StateOf(bus.sim.View().state)) && !ShowsFault(bus.sim.View())
                               && bus.sim.View().emergency == old(bus.sim.View()).emergency
                               && FlagsWithin(bus.sim.View().flags, old(bus.sim.View()).flags)
      ensures bus.Closed() && !ShowsFault(old(bus.sim.View())) ==> bus.sim.View().state == old(bus.sim.View()).state
      ensures bus.Closed() && ShowsFault(old(bus.sim.View())) ==>
                bus.sim.View().state == if old(bus.sim.View()).emergency then SwitchOnDisabled else ReadyToSwitchOn
    {
      var st :- CurrentState();
      ReadIsUnasked(old(bus.trace), bus.between, bus.trace, |old(bus.trace)|);
      if st == Statusword.Fault || st == Statusword.FaultReactionActive {
        st :- StateAfterReset(|old(bus.trace)|);
      }
      return Ok(st);
    }

    /** A drive that is not ready may become so by itself. */
    method AwaitReady(ghost from: nat) returns (r: Result<Statusword.CiA402State, Failure>)
      requires bus.Valid() && JustReadSince(from, Statusword.NotReadyToSwitchOn)
      modifies bus`trace, bus`between, bus`now, bus.sim
      ensures bus.Valid() && old(bus.trace) < bus.trace
      ensures BringUpResult(if r.Ok? then Ok(()) else Err(r.error), from, old(bus.trace), bus.trace)
      ensures r.Ok? ==> bus.trace[|bus.trace| - 1].Got?
                        && Statusword.InferState(bus.trace[|bus.trace| - 1].value) == r.value
      ensures r != Err(Unhandled) && (r.Ok? ==> Awaited(bus.trace, |old(bus.trace)| - 1))
      ensures bus.Closed() ==> SameControl(old(bus.sim.View()), bus.sim.View())
    {
      hide After, WordsOf, ParamsOf, Statusword.InferState, Awaited, FirstHit, WaitFailed;
      var waited := WaitForStates(READY, stepTimeout);
      assert bus.trace[|old(bus.trace)|].Clock?;
      if waited.Err? {
        UnaskedStays(old(bus.trace), bus.trace, from, |old(bus.trace)| - 1);
        assert waited.error == StateTimeout ==>
                 WaitTimedOut(bus.trace, |old(bus.trace)|, stepTimeout, faultResetTimeout);
        return Err(waited.error);
      }
      ghost var polled := bus.trace;
      r := CurrentState();
      if r.Ok? {
        WaitWasNeeded(old(bus.trace), polled, bus.trace);
      }
    }

    /** Quick stop: not reaching QUICK_STOP_ACTIVE within two seconds is only logged. */
    method QuickStop() returns (r: Result<(), Failure>)
      requires bus.Valid()
      modifies bus`trace, bus`between, bus`words, bus`now, bus.sim
      ensures bus.Valid() && old(bus.trace) <= bus.trace
      ensures Conduct(bus.trace, |old(bus.trace)|, requireRemote, r.Ok?)
      ensures r.Err? ==> r.error in {AccessFailed, InvalidBootState, RemoteDisabled}
                         && Cause(bus.trace, requireRemote, r.error)
      ensures bus.words == old(bus.words) + [0x000B]
      ensures r.Ok? ==> QuickStopWaited(bus.trace, |old(bus.trace)|)
      ensures bus.Closed() ==> r.Ok? && Obeyed(old(bus.sim.View()), bus.sim.View(), 0x000B)
    {
      hide After, WordsOf, ParamsOf, Statusword.InferState, Statusword.ShowsQuickStop, FirstHit, Paced;
      var _ :- Command(0x000B);
      ghost var from := |bus.trace|;
      var waited := WaitForStates({Statusword.QuickStopActive}, 2_000_000);
      if waited.Err? && waited.error != StateTimeout {
        return Err(waited.error);
      }
      if waited.Ok? {
        Statusword.StatesByBits(bus.trace[|bus.trace| - 1].value);
      } else {
        assert WaitFailed(bus.trace, from, 2_000_000, {Statusword.QuickStopActive});
      }
      return Ok(());
    }

    /** The way out of a quick stop, which the simulator never reports. */
    method Restart() returns (r: Result<(), Failure>)
      requires bus.Valid()
      modifies bus`trace, bus`between, bus`words, bus`now, bus.sim
      ensures bus.Valid() && StepResult(r, old(bus.trace), bus.trace)
      ensures r.Ok? ==>
                bus.words == old(bus.words) + [0x0006, 0x0007, 0x000F] && ReadEnabled(bus.trace, |old(bus.trace)|)
    {
      var _ :- Shutdown();
      var _ :- SwitchOn();
      r := EnableOperation();
    }

    /** The bring-up once no fault shows; `start` is the state just read. */
    method RunFrom(start: Statusword.CiA402State, ghost from: nat)
      returns (r: Result<(), Failure>, ghost path: Path, ghost at: Choices)
      requires bus.Valid() && JustReadSince(from, start)
      requires bus.Closed() ==> start == StateOf(bus.sim.View().state) && !ShowsFault(bus.sim.View())
      modifies bus`trace, bus`between, bus`words, bus`now, bus.sim
      ensures bus.Valid() && BringUpResult(r, from, old(bus.trace), bus.trace) && !path.reset
      ensures r.Ok? ==> && bus.words == old(bus.words) + path.Words() && ReadEnabled(bus.trace, |old(bus.trace)| - 1)
                        && at.first == old(bus.trace) && StepsByBits(bus.trace, path, at)
      ensures r == Err(Unhandled) ==> Refused(old(bus.trace), bus.trace, path, |old(bus.trace)| - 1)
      ensures bus.Closed() ==> !bus.sim.View().fault && FlagsWithin(bus.sim.View().flags, old(bus.sim.View()).flags)
      ensures bus.Closed() && !old(bus.sim.View()).emergency ==>
                r.Ok? && bus.sim.View().state == OperationEnabled && path == PathFrom(old(bus.sim.View()))
      ensures bus.Closed() && old(bus.sim.View()).emergency ==>
                (r.Ok? <==> old(bus.sim.View()).state == OperationEnabled)
    {
      hide After, WordsOf, ParamsOf, StepsByBits, LastChoice, Refused, Statusword.InferState;
      hide Conduct, TimedOut, WordTimedOut, Awaited, Cause, ReadEnabled;
      path, at := Path(false, start == Statusword.SwitchOnDisabled, false, false), Choices([], [], []);
      var st :- ReachReady(start, from);
      ghost var ready, switchOn, restart, last := bus.trace, false, false, [];
      r, switchOn, restart, last := RunFromReady(st);
      path := path.(switchOn := switchOn, restart := restart);
      PartsJoin(old(bus.trace), ready, bus.trace, from, requireRemote, stepTimeout, faultResetTimeout);
      if r.Ok? {
        at := Choices(old(bus.trace), ready, last);
        ChoicesJoin(bus.trace, path, at);
      } else if r.error == Unhandled {
        RefusedAfter(old(bus.trace), ready, bus.trace, st, path, |old(bus.trace)| - 1);
      }
    }

    /** Off SWITCH_ON_DISABLED, and past the state that is not ready. */
    method ReachReady(start: Statusword.CiA402State, ghost from: nat)
      returns (r: Result<Statusword.CiA402State, Failure>)
      requires bus.Valid() && JustReadSince(from, start)
      requires bus.Closed() ==> start == StateOf(bus.sim.View().state) && !ShowsFault(bus.sim.View())
      modifies bus`trace, bus`between, bus`words, bus`now, bus.sim
      ensures bus.Valid() && BringUpResult(if r.Ok? then Ok(()) else Err(r.error), from, old(bus.trace), bus.trace)
      ensures r != Err(Unhandled) && (r.Ok? ==> JustRead(bus.trace, r.value))
      ensures r.Ok? && Statusword.NotReadyToSwitchOn in {start, r.value} ==> Awaited(bus.trace, |old(bus.trace)| - 1)
      ensures r.Ok? ==> bus.words == old(bus.words) + (if start == Statusword.SwitchOnDisabled then [0x0006] else [])
      ensures bus.Closed() ==> && r == Ok(StateOf(bus.sim.View().state)) && !ShowsFault(bus.sim.View())
                               && bus.sim.View().emergency == old(bus.sim.View()).emergency
                               && FlagsWithin(bus.sim.View().flags, old(bus.sim.View()).flags)
                               && bus.sim.View().state
                                  == if start == Statusword.SwitchOnDisabled && !old(bus.sim.View()).emergency
                                     then ReadyToSwitchOn else old(bus.sim.View()).state
    {
      var st :- LeaveDisabled(start, from);
      if st == Statusword.NotReadyToSwitchOn {
        st :- AwaitReady(from);
      }
      return Ok(st);
    }

    /** The bring-up of a drive that is at least ready. */
    method RunFromReady(start: Statusword.CiA402State)
      returns (r: Result<(), Failure>, ghost switchOn: bool, ghost restart: bool, ghost last: seq<Event>)
      requires bus.Valid() && JustRead(bus.trace, start)
      requires bus.Closed() ==> start == StateOf(bus.sim.View().state) && !ShowsFault(bus.sim.View())
      modifies bus`trace, bus`between, bus`words, bus`now, bus.sim
      ensures bus.Valid() && LastResult(r, old(bus.trace), bus.trace)
      ensures switchOn == (start == Statusword.ReadyToSwitchOn) && (bus.Closed() ==> !restart)
      ensures r.Ok? ==> && bus.words == old(bus.words) + (if switchOn then [0x0007] else []) + LastWords(restart)
                        && ReadEnabled(bus.trace, |old(bus.trace)| - 1)
                        && old(bus.trace) <= last <= bus.trace && LastChoice(bus.trace, last, restart)
                        && WordsOf(last) == old(bus.words) + (if switchOn then [0x0007] else [])
      ensures r == Err(Unhandled) ==>
                && EndsWithRead(bus.trace) && !Handled(LastValue(bus.trace))
                && bus.words == old(bus.words) + (if switchOn then [0x0007] else [])
                && (!switchOn ==> bus.trace == old(bus.trace))
      ensures start !in {Statusword.ReadyToSwitchOn, Statusword.SwitchedOn,
                         Statusword.OperationEnabled, Statusword.QuickStopActive} ==>
                r == Err(Unhandled) && bus.trace == old(bus.trace)
      ensures bus.Closed() ==> !bus.sim.View().fault && FlagsWithin(bus.sim.View().flags, old(bus.sim.View()).flags)
      ensures bus.Closed() && !old(bus.sim.View()).emergency && start != Statusword.SwitchOnDisabled ==>
                r.Ok? && bus.sim.View().state == OperationEnabled
      ensures bus.Closed() && old(bus.sim.View()).emergency ==>
                (r.Ok? <==> old(bus.sim.View()).state == OperationEnabled)
    {
      hide After, WordsOf, ParamsOf, Statusword.InferState;
      switchOn, restart, last := start == Statusword.ReadyToSwitchOn, false, bus.trace;
      var st :- LeaveReady(start);
      last := bus.trace;
      r, restart := EnableFrom(st);
      Statusword.StatesByBits(LastValue(last));
    }

    /** A shutdown command takes a disabled drive on; every other state is left to what follows. */
    method LeaveDisabled(start: Statusword.CiA402State, ghost from: nat)
      returns (r: Result<Statusword.CiA402State, Failure>)
      requires bus.Valid() && JustReadSince(from, start)
      requires bus.Closed() ==> start == StateOf(bus.sim.View().state) && !ShowsFault(bus.sim.View())
      modifies bus`trace, bus`between, bus`words, bus`now, bus.sim
      ensures bus.Valid() && StepResult(if r.Ok? then Ok(()) else Err(r.error), old(bus.trace), bus.trace)
      ensures start != Statusword.SwitchOnDisabled ==> r == Ok(start) && bus.trace == old(bus.trace)
      ensures r.Ok? ==> JustReadSince(from, r.value)
      ensures r.Ok? ==> bus.words == old(bus.words) + (if start == Statusword.SwitchOnDisabled then [0x0006] else [])
      ensures bus.Closed() ==> && r == Ok(StateOf(bus.sim.View().state)) && !ShowsFault(bus.sim.View())
                               && bus.sim.View().emergency == old(bus.sim.View()).emergency
                               && FlagsWithin(bus.sim.View().flags, old(bus.sim.View()).flags)
                               && bus.sim.View().state
                                  == if start == Statusword.SwitchOnDisabled && !old(bus.sim.View()).emergency
                                     then ReadyToSwitchOn else old(bus.sim.View()).state
    {
      if start != Statusword.SwitchOnDisabled {
        return Ok(start);
      }
      var _ :- Shutdown();
      ghost var disabled := bus.trace;
      r := CurrentState();
      if r.Ok? {
        ReadIsUnasked(disabled, bus.between, bus.trace, from);
      }
    }

    /** A switch-on command takes a ready drive on; every other state is left to what follows. */
    method LeaveReady(start: Statusword.CiA402State) returns (r: Result<Statusword.CiA402State, Failure>)
      requires bus.Valid() && JustRead(bus.trace, start)
      requires bus.Closed() ==> start == StateOf(bus.sim.View().state) && !ShowsFault(bus.sim.View())
      modifies bus`trace, bus`between, bus`words, bus`now, bus.sim
      ensures bus.Valid() && StepResult(if r.Ok? then Ok(()) else Err(r.error), old(bus.trace), bus.trace)
      ensures r.Ok? ==> JustRead(bus.trace, r.value)
      ensures r.Ok? ==> bus.words == old(bus.words) + (if start == Statusword.ReadyToSwitchOn then [0x0007] else [])
      ensures bus.Closed() ==> && !ShowsFault(bus.sim.View())
                               && bus.sim.View().emergency == old(bus.sim.View()).emergency
                               && FlagsWithin(bus.sim.View().flags, old(bus.sim.View()).flags)
      ensures start != Statusword.ReadyToSwitchOn ==> r == Ok(start) && bus.trace == old(bus.trace)
      ensures bus.Closed() && start != Statusword.ReadyToSwitchOn ==> bus.sim.View() == old(bus.sim.View())
      ensures bus.Closed() && start == Statusword.ReadyToSwitchOn ==>
                if old(bus.sim.View()).emergency then r.Err?
                else r == Ok(Statusword.SwitchedOn) && bus.sim.View().state == SwitchedOn
    {
      if start != Statusword.ReadyToSwitchOn {
        return Ok(start);
      }
      var _ :- SwitchOn();
      r := CurrentState();
    }

    /** The last step: enable, or write the enabling word once more, or leave a quick stop; no
        other state has a branch, and it is refused without a write. */
    method EnableFrom(start: Statusword.CiA402State) returns (r: Result<(), Failure>, ghost restart: bool)
      requires bus.Valid() && JustRead(bus.trace, start)
      requires bus.Closed() ==> start == StateOf(bus.sim.View().state) && !ShowsFault(bus.sim.View())
      modifies bus`trace, bus`between, bus`words, bus`now, bus.sim
      ensures bus.Valid() && LastResult(r, old(bus.trace), bus.trace)
      ensures restart == (start == Statusword.QuickStopActive)
      ensures r.Ok? ==> && bus.words == old(bus.words) + LastWords(restart)
                        && ReadEnabled(bus.trace, |old(bus.trace)| - 1)
      ensures r == Err(Unhandled) <==>
                start !in {Statusword.SwitchedOn, Statusword.OperationEnabled, Statusword.QuickStopActive}
      ensures r == Err(Unhandled) ==> bus.trace == old(bus.trace)
      ensures bus.Closed() ==> !bus.sim.View().fault && FlagsWithin(bus.sim.View().flags, old(bus.sim.View()).flags)
      ensures bus.Closed() && start in {Statusword.SwitchedOn, Statusword.OperationEnabled} ==>
                (r.Ok? <==> !old(bus.sim.View()).emergency || old(bus.sim.View()).state == OperationEnabled)
      ensures bus.Closed() && r.Ok? ==> bus.sim.View().state == OperationEnabled
    {
      restart := start == Statusword.QuickStopActive;
      if start == Statusword.SwitchedOn {
        r := EnableOperation();
        return;
      }
      if start == Statusword.OperationEnabled {
        Statusword.StatesByBits(bus.trace[|bus.trace| - 1].value);
        assert ReadEnabled(bus.trace, |bus.trace| - 1);
        r := Command(0x000F);
        return;
      }
      if start == Statusword.QuickStopActive {
        r := Restart();
        return;
      }
      Statusword.StatesByBits(bus.trace[|bus.trace| - 1].value);
      return Err(Unhandled), restart;
    }
  }

  /** The last event is the read of a statusword that decodes to this state. */
  predicate JustRead(trace: seq<Event>, state: Statusword.CiA402State) {
    trace != [] && trace[|trace| - 1].Got? && Statusword.InferState(trace[|trace| - 1].value) == state
  }

  /** The one path a simulated drive outside an emergency asks for. */
  function PathFrom(d: Drive): Path {
    var disabled := !ShowsFault(d) && d.state == SwitchOnDisabled;
    Path(ShowsFault(d), disabled, ShowsFault(d) || disabled || d.state == ReadyToSwitchOn, false)
  }

  /** The reads that chose the steps, each at the end of its trace, and the words after each. */
  lemma ChoicesJoin(trace: seq<Event>, path: Path, at: Choices)
    requires !path.reset && at.first <= at.ready <= at.last && EndsWithRead(at.first) && EndsWithRead(at.ready)
    requires path.shutdown == (Statusword.InferState(LastValue(at.first)) == Statusword.SwitchOnDisabled)
    requires WordsOf(at.ready) == WordsOf(at.first) + (if path.shutdown then [0x0006] else [])
    requires path.switchOn == (Statusword.InferState(LastValue(at.ready)) == Statusword.ReadyToSwitchOn)
    requires WordsOf(at.last) == WordsOf(at.ready) + (if path.switchOn then [0x0007] else [])
    requires Statusword.InferState(LastValue(at.first)) == Statusword.NotReadyToSwitchOn ==>
               Awaited(at.ready, |at.first| - 1)
    requires LastChoice(trace, at.last, path.restart)
    ensures StepsByBits(trace, path, at) && WordsOf(trace) == WordsOf(at.first) + path.Words()
  {
    hide Statusword.InferState, Statusword.Pattern;
    Statusword.StatesByBits(LastValue(at.first));
    Statusword.StatesByBits(LastValue(at.ready));
  }

  /** A clean part, and then the last one. */
  lemma PartsJoin(before: seq<Event>, middle: seq<Event>, after: seq<Event>, from: nat, requireRemote: bool,
                  stepTimeout: int, resetTimeout: int)
    requires before <= middle <= after && from < |before| && Conduct(middle, |before|, requireRemote, true)
    ensures forall clean :: Conduct(after, |middle|, requireRemote, clean) ==>
                              Conduct(after, |before|, requireRemote, clean)
    ensures WordTimedOut(after, |middle|, stepTimeout, resetTimeout) ==>
              TimedOut(after, from, stepTimeout, resetTimeout)
    ensures ReadEnabled(after, |middle| - 1) ==> ReadEnabled(after, |before| - 1)
  {
    assert forall i :: |before| <= i < |middle| ==> after[i] == middle[i];
    if WordTimedOut(after, |middle|, stepTimeout, resetTimeout) {
      assert WordTimedOut(after, from, stepTimeout, resetTimeout);
    }
  }

  /** A refusal in the state `st` read before, or after the switch-on it asked for. */
  lemma RefusedAfter(before: seq<Event>, ready: seq<Event>, after: seq<Event>, st: Statusword.CiA402State, path: Path,
                     from: nat)
    requires JustRead(ready, st) && path.switchOn == (st == Statusword.ReadyToSwitchOn)
    requires st == Statusword.NotReadyToSwitchOn ==> Awaited(ready, from)
    requires EndsWithRead(after) && !Handled(LastValue(after)) && (!path.switchOn ==> after == ready)
    requires WordsOf(after) == WordsOf(before) + path.Approach()
    ensures Refused(before, after, path, from)
  {
    Statusword.StatesByBits(LastValue(after));
  }

  lemma PathExtends(before: seq<int>, middle: seq<int>, after: seq<int>, path: Path)
    requires middle == before + (if path.reset then RESET_WORDS else [])
    ensures after == middle + path.(reset := false).Words() ==> after == before + path.Words()
    ensures after == middle + path.(reset := false).Approach() ==> after == before + path.Approach()
  {
  }

  predicate ShowsFault(d: Drive) {
    d.fault || d.state == Faulted
  }

  /** The fault is gone and the drive rests in the state that the emergency allows. */
  predicate ResetDone(d: Drive, d': Drive) {
    && !d'.fault && d'.emergency == d.emergency && FlagsWithin(d'.flags, d.flags)
    && d'.state == if d.emergency then SwitchOnDisabled else ReadyToSwitchOn
  }

  lemma SimulatorIsAcceptable(d: Drive)
    ensures Acceptable(MakeStatusword(d), true)
  {
    StatuswordBits(d);
    NeverInvalidBoot(MakeStatusword(d));
  }

  lemma NeverInvalidBoot(sw: int)
    requires !HasBit(sw, 0x0100)
    ensures sw != INVALID_BOOT_STATE
  {
  }
}
