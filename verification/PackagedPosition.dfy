/** The packaged variant of the move, which pulses bit 4 first and looks for the acknowledge
    afterwards: packages/cia402/src/cia402/motion/profile_position.py. */
module PackagedPosition {
  import opened Prelude
  import opened Codec
  import opened Bits
  import opened DriveSpec
  import opened Access
  import opened Bus
  import opened Chase
  import opened Preparation
  import opened Pursuit
  import Controlword
  import Statusword

  const ACK_TIMEOUT: int := 500_000
  const ACK_WINDOW: int := 250

  datatype Config = Config(
    profile: Profile,
    pollInterval: nat,
    moveTimeout: int,
    cycleDelay: nat,
    verifyMode: bool,
    modeSetTimeout: int,
    modeSettle: nat
  )

  /** The trace when an untrusted bit 10 had cleared, with the last round of the wait for this and
      its statusword; then the last round of the final wait and its statusword. */
  datatype Sights = Sights(cleared: seq<Event>, clearRound: nat, clearAt: nat, round: nat, reached: nat)

  const UNSEEN: Sights := Sights([], 0, 0, 0, 0)

  /** Where the pulse lies, how the acknowledge wait ended, what started the final wait, and what
      ended it. */
  datatype Witness = Witness(edge: nat, release: nat, ack: nat, reached: nat, acked: seq<Event>, ackAt: nat,
                             answer: Result<bool, Failure>, sights: Sights)

  const NOTHING: Witness := Witness(0, 0, 0, 0, [], 0, Ok(false), UNSEEN)

  /** A statusword with bit 10, the commanded and the actual position, read in this order, the
      positions no more than 250 apart. */
  predicate CheckedPosition(trace: seq<Event>, from: nat, k: nat) {
    && from <= k < |trace| && trace[k].Got? && trace[k].index == POSITION_ACTUAL
    && exists i, j :: from <= i < j < k && GotStatus(trace[i]) && HasBit(trace[i].value, Statusword.TARGET_REACHED)
                      && trace[j].Got? && trace[j].index == TARGET_POSITION
                      && Abs(trace[k].value - trace[j].value) <= ACK_WINDOW
  }

  /** Why the final wait may take bit 10 at its word: an acknowledge was read, or the positions
      were compared. */
  predicate Started(trace: seq<Event>, from: nat, k: nat) {
    (from <= k < |trace| && GotStatus(trace[k]) && IsAck(trace[k].value)) || CheckedPosition(trace, from, k)
  }

  predicate ReachedAt(trace: seq<Event>, k: nat) {
    k < |trace| && GotStatus(trace[k]) && HasBit(trace[k].value, Statusword.TARGET_REACHED)
  }

  /** Both words of the pulse, in order, acknowledged. */
  predicate Pulsed(trace: seq<Event>, from: nat, setWord: int, clearWord: int, edge: nat, release: nat) {
    && from <= edge < release < |trace|
    && Acknowledges(trace[edge], CONTROLWORD, 0, setWord, 2, false)
    && Acknowledges(trace[release], CONTROLWORD, 0, clearWord, 2, false)
  }

  /** A completed move: pulse, evidence of the start, then bit 10. */
  predicate Completed(trace: seq<Event>, from: nat, setWord: int, clearWord: int, w: Witness) {
    && Pulsed(trace, from, setWord, clearWord, w.edge, w.release) && w.release < w.ack < w.reached < |trace|
    && OnlyPolling(trace, w.release + 1)
    && Started(trace, w.release + 1, w.ack) && ReachedAt(trace, w.reached)
  }

  lemma PositionsCompared(trace: seq<Event>, from: nat, i: nat, j: nat, k: nat)
    requires from <= i < j < k < |trace| && GotStatus(trace[i]) && HasBit(trace[i].value, Statusword.TARGET_REACHED)
    requires trace[j].Got? && trace[j].index == TARGET_POSITION
    requires trace[k].Got? && trace[k].index == POSITION_ACTUAL && Abs(trace[k].value - trace[j].value) <= ACK_WINDOW
    ensures CheckedPosition(trace, from, k)
  {
  }

  lemma StartedStays(before: seq<Event>, after: seq<Event>, from: nat, k: nat)
    requires before <= after && Started(before, from, k)
    ensures Started(after, from, k)
  {
    if CheckedPosition(before, from, k) {
      var i, j :| from <= i < j < k && GotStatus(before[i]) && HasBit(before[i].value, Statusword.TARGET_REACHED)
                  && before[j].Got? && before[j].index == TARGET_POSITION
                  && Abs(before[k].value - before[j].value) <= ACK_WINDOW;
      PositionsCompared(after, from, i, j, k);
    }
  }

  // ------------------------------------------------------------ how the waits end

  /** The commanded and then the actual position were read, and `agree` says whether they are no
      more than 250 apart. */
  predicate Compared(trace: seq<Event>, from: nat, agree: bool) {
    exists p :: from <= p < |trace| - 1 && TicksBetween(trace, from, p) && TicksBetween(trace, p + 1, |trace| - 1)
                && trace[p].Got? && trace[p].index == 0x607A
                && trace[|trace| - 1].Got? && trace[|trace| - 1].index == 0x6064
                && agree == (Abs(trace[|trace| - 1].value - trace[p].value) <= 250)
  }

  /** By the statusword at `j`: an answer, or none before a look at the clock at or after the
      deadline, and then by the positions; or else by a read that was lost. */
  predicate AckEnds(trace: seq<Event>, j: nat, deadline: int, r: Result<bool, Failure>) {
    && j < |trace|
    && if r.Err? then r.error == AccessFailed && trace[|trace| - 1].ReadLost?
       else
         && GotStatus(trace[j])
         && if !Unanswered(trace[j].value) then r.value && j == |trace| - 1
            else && j + 1 < |trace| && trace[j + 1].Clock? && trace[j + 1].time >= deadline
                 && Compared(trace, j + 2, r.value)
  }

  predicate AckResult(trace: seq<Event>, start: nat, j: nat, r: Result<bool, Failure>) {
    PolledUntil(trace, start, j, 500_000, Unanswered) && AckEnds(trace, j, trace[start].time + 500_000, r)
  }

  /** Bit 10 has not cleared yet, and no fault shows. */
  predicate Stale(sw: int) {
    HasBit(sw, 0x0400) && !HasBit(sw, 0x0008)
  }

  /** Bit 10 is not set yet, and no fault shows. */
  predicate Underway(sw: int) {
    !HasBit(sw, 0x0400) && !HasBit(sw, 0x0008)
  }

  /** The last round of the wait for bit 10 to clear; the clock is looked at after the statusword. */
  predicate ClearEnds(trace: seq<Event>, a: nat, j: nat, deadline: int, r: Result<(), Failure>) {
    && a < |trace| && trace[a].AbortPolled?
    && if trace[a].requested then a == |trace| - 1 && r == Err(MotionAborted)
       else
         && a < j < |trace| && TicksBetween(trace, a + 1, j)
         && match r
            case Ok(_) => j == |trace| - 1 && GotStatus(trace[j]) && !HasBit(trace[j].value, 0x0400)
            case Err(DriveFault) =>
              && j == |trace| - 1 && GotStatus(trace[j])
              && HasBit(trace[j].value, 0x0400) && HasBit(trace[j].value, 0x0008)
            case Err(MoveTimeout) =>
              && GotStatus(trace[j]) && Stale(trace[j].value)
              && j + 1 < |trace| && trace[j + 1].Clock? && trace[j + 1].time >= deadline
            case Err(AccessFailed) => j == |trace| - 1 && trace[j].ReadLost?
            case _ => false
  }

  /** The last round of the wait for bit 10; the clock is looked at before the statusword. */
  predicate ReachEnds(trace: seq<Event>, a: nat, j: nat, deadline: int, r: Result<(), Failure>) {
    && a < |trace| && trace[a].AbortPolled?
    && if trace[a].requested then a == |trace| - 1 && r == Err(MotionAborted)
       else
         && a + 1 < j < |trace| && trace[a + 1].Clock? && TicksBetween(trace, a + 2, j)
         && match r
            case Ok(_) => j == |trace| - 1 && GotStatus(trace[j]) && HasBit(trace[j].value, 0x0400)
            case Err(DriveFault) =>
              && j == |trace| - 1 && GotStatus(trace[j])
              && !HasBit(trace[j].value, 0x0400) && HasBit(trace[j].value, 0x0008)
            case Err(MoveTimeout) => GotStatus(trace[j]) && Underway(trace[j].value) && trace[a + 1].time >= deadline
            case Err(AccessFailed) => trace[|trace| - 1].ReadLost?
            case _ => false
  }

  predicate ClearResult(trace: seq<Event>, start: nat, a: nat, j: nat, timeout: int, r: Result<(), Failure>) {
    && start < a && Decided(trace, start, start + 1, a, timeout, Stale)
    && ClearEnds(trace, a, j, trace[start].time + timeout, r)
  }

  predicate ReachResult(trace: seq<Event>, start: nat, from: nat, a: nat, j: nat, timeout: int,
                        r: Result<(), Failure>) {
    && start < from && Decided(trace, start, from, a, timeout, Underway)
    && ReachEnds(trace, a, j, trace[start].time + timeout, r)
  }

  /** The whole final wait, which began at `start` and which the trace ends with. Both of its parts
      share one time. */
  predicate WaitResult(trace: seq<Event>, start: nat, s: Sights, timeout: int, ackSeen: bool, r: Result<(), Failure>) {
    if ackSeen then ReachResult(trace, start, start + 1, s.round, s.reached, timeout, r)
    else if s.cleared == trace then r.Err? && ClearResult(trace, start, s.clearRound, s.clearAt, timeout, r)
    else
      && s.cleared <= trace && ClearResult(s.cleared, start, s.clearRound, s.clearAt, timeout, Ok(()))
      && ReachResult(trace, start, |s.cleared|, s.round, s.reached, timeout, r)
  }

  /** The acknowledge wait right after the release, and then the final wait. */
  predicate FinishResult(trace: seq<Event>, start: nat, w: Witness, timeout: int, r: Result<(), Failure>) {
    && w.acked <= trace && AckResult(w.acked, start, w.ackAt, w.answer)
    && if w.answer.Err? then r == Err(w.answer.error) && w.acked == trace
       else WaitResult(trace, |w.acked|, w.sights, timeout, w.answer.value, r)
  }

  /** A round that polls, and then looks at the clock. */
  lemma ClearPends(before: seq<Event>, polled: seq<Event>, t: int)
    requires OnePoll(before + [AbortPolled(false)], polled)
    requires GotStatus(polled[|polled| - 1]) && Stale(polled[|polled| - 1].value)
    ensures var trace := polled + [Clock(t)];
            && trace[|before|] == AbortPolled(false) && OneLook(trace, |before|, |trace| - 1)
            && Undecided(trace, |before|, |trace|, Stale) && AbortFirst(trace, |before|, |trace|)
  {
    var trace := polled + [Clock(t)];
    var begun := before + [AbortPolled(false)];
    assert polled[|before|] == begun[|before|];
    assert trace[|before|] == AbortPolled(false) && NothingBetween(trace, |before| + 1, |trace| - 2);
  }

  /** What a round reads after its look at the clock for the message of a timeout. */
  lemma RoundGoesOn(before: seq<Event>, looked: seq<Event>, trace: seq<Event>, j: nat)
    requires before < looked <= trace && OnlyPolling(looked, |before|) && OnlyPolling(trace, |looked|)
    requires OneLook(looked, |before|, j + 1) && OtherReads(trace, |looked|)
    ensures OnlyPolling(trace, |before|) && OneLook(trace, |before|, j + 1)
    ensures forall i :: |before| <= i < |looked| ==> trace[i] == looked[i]
  {
    PollsJoin(before, looked, trace);
    forall k | |before| <= k < |trace| && trace[k].Clock? ensures k == j + 1 {
      if k < |looked| { assert trace[k] == looked[k]; }
    }
  }

  lemma ClearIsLate(before: seq<Event>, polled: seq<Event>, t: int, trace: seq<Event>, deadline: int)
    requires OnePoll(before + [AbortPolled(false)], polled) && OnlyPolling(polled, |before|)
    requires GotStatus(polled[|polled| - 1]) && Stale(polled[|polled| - 1].value) && t >= deadline
    requires polled + [Clock(t)] <= trace
    requires OnlyPolling(trace, |polled| + 1) && OtherReads(trace, |polled| + 1)
    ensures ClearEnds(trace, |before|, |polled| - 1, deadline, Err(MoveTimeout))
    ensures OnlyPolling(trace, |before|) && OneLook(trace, |before|, |polled|)
  {
    var looked := polled + [Clock(t)];
    ClearPends(before, polled, t);
    ClearPolls(before, polled);
    RoundGoesOn(before, looked, trace, |polled| - 1);
    assert trace[|before|] == looked[|before|] && trace[|polled|] == looked[|polled|];
    assert trace[|polled| - 1] == looked[|polled| - 1];
    assert TicksBetween(trace, |before| + 1, |polled| - 1);
  }

  lemma ClearPolls(before: seq<Event>, polled: seq<Event>)
    requires OnePoll(before + [AbortPolled(false)], polled)
    ensures polled[|before|] == AbortPolled(false) && OneLook(polled, |before|, |polled|)
    ensures |before| < |polled| - 1 && TicksBetween(polled, |before| + 1, |polled| - 1)
  {
    var begun := before + [AbortPolled(false)];
    assert polled[|before|] == begun[|before|];
  }

  /** A round that did not come to look at the clock. */
  lemma NoLookRests(soFar: seq<Event>, trace: seq<Event>, start: nat, interval: nat, now: int)
    requires soFar <= trace && start < |soFar| && Rested(soFar, start, interval, now)
    requires OneLook(trace, |soFar|, |trace|)
    ensures Rested(trace, start, interval, now)
  {
    forall k | start < k < |trace| && trace[k].Clock? ensures k < |soFar| && trace[k] == soFar[k] {
    }
  }

  /** A round that looks at the clock, and then polls. */
  lemma ReachPolls(before: seq<Event>, t: int, polled: seq<Event>)
    requires OnePoll(before + [AbortPolled(false)] + [Clock(t)], polled)
    ensures polled[|before|] == AbortPolled(false) && polled[|before| + 1] == Clock(t)
    ensures OneLook(polled, |before|, |before| + 1)
    ensures |before| + 1 < |polled| - 1 && TicksBetween(polled, |before| + 2, |polled| - 1)
    ensures AbortFirst(polled, |before|, |polled|)
    ensures GotStatus(polled[|polled| - 1]) && Underway(polled[|polled| - 1].value) ==>
              Undecided(polled, |before|, |polled|, Underway)
  {
    var begun := before + [AbortPolled(false)] + [Clock(t)];
    assert polled[|before|] == begun[|before|] && polled[|before| + 1] == begun[|before| + 1];
    assert NothingBetween(polled, |before| + 1, |polled| - 1);
    assert AfterAbortPoll(polled, |before|, |polled| - 1);
  }

  class ProfilePosition {
    const bus: RegisterBus
    const cfg: Config

    constructor (bus: RegisterBus, cfg: Config)
      ensures this.bus == bus && this.cfg == cfg
    {
      this.bus, this.cfg := bus, cfg;
    }

    /** Only a mode that is not looked for needs time. */
    function Settling(): (t: nat)
      ensures if cfg.verifyMode then t == 0 else t >= 10_000 && t >= cfg.modeSettle
    {
      if cfg.verifyMode then 0 else Max(10_000, cfg.modeSettle)
    }

    method EnsureMode(ghost target: int) returns (r: Result<(), Failure>, ghost shown: Option<Result<bool, Failure>>)
      requires bus.Valid()
      modifies bus`trace, bus`between, bus`params, bus`now, bus.sim
      ensures bus.Valid() && old(bus.trace) <= bus.trace
      ensures r.Ok? ==> NoParamLost(bus.trace, |old(bus.trace)|)
      ensures bus.params == old(bus.params) + [Param(0x6060, 0, 1)]
      ensures r.Ok? ==> bus.now >= old(bus.now) + Settling()
      ensures ModeEnsured(|old(bus.trace)|, bus.trace, 1, cfg.modeSetTimeout, shown,
                          cfg.verifyMode, cfg.verifyMode, r)
      ensures bus.Closed() && Poised(old(bus.sim.View()), target) ==>
                r.Ok? && Poised(bus.sim.View(), target) && bus.sim.View().mode == MODE_PROFILE_POSITION
    {
      ByteFits(MODE_PROFILE_POSITION);
      var written := WriteParameter(bus, MODES_OF_OPERATION, 0, MODE_PROFILE_POSITION, 1, false, target);
      if written.Err? {
        return written, None;
      }
      ghost var from, chosen := |bus.trace|, bus.trace;
      if !cfg.verifyMode {
        bus.Sleep(Max(10_000, cfg.modeSettle));
        return Ok(()), None;
      }
      ghost var ready, steps := bus.sim.View(), [];
      var seen;
      seen, steps := AwaitMode(bus, MODE_PROFILE_POSITION, cfg.modeSetTimeout, cfg.pollInterval);
      if bus.Closed() && Poised(old(bus.sim.View()), target) {
        TicksKeepPoised(ready, steps, target);
      }
      ModeWaitOnlyReads(bus.trace, from, MODE_PROFILE_POSITION, cfg.modeSetTimeout, seen);
      ParamsJoin(old(bus.trace), chosen, bus.trace);
      shown := Some(seen);
      assert Acknowledges(bus.trace[from - 1], 0x6060, 0, MODE_PROFILE_POSITION, 1, false);
      assert ModeChecked(|old(bus.trace)|, bus.trace, MODE_PROFILE_POSITION, cfg.modeSetTimeout, seen);
      if seen.Err? {
        return Err(seen.error), shown;
      }
      return if seen.value then Ok(()) else Err(ModeNotConfirmed), shown;
    }

    /** Arguments go before the configuration. */
    method Configure(arguments: Profile, ghost target: int) returns (r: Result<(), Failure>)
      requires bus.Valid()
      modifies bus`trace, bus`between, bus`params, bus.sim
      ensures bus.Valid() && old(bus.trace) <= bus.trace
      ensures r.Ok? ==> NoParamLost(bus.trace, |old(bus.trace)|)
      ensures r.Ok? ==> && bus.params == old(bus.params) + arguments.Over(cfg.profile).Writes()
                        && arguments.Over(cfg.profile).AllFit()
      ensures r.Err? ==> WriteFails(bus.trace, arguments.Over(cfg.profile).AllFit(), r.error)
      ensures bus.Closed() && Poised(old(bus.sim.View()), target) ==>
                && Poised(bus.sim.View(), target) && bus.sim.View().mode == old(bus.sim.View()).mode
                && (r.Ok? <==> arguments.Over(cfg.profile).AllFit()) && (r.Err? ==> r.error == ValueRefused)
    {
      r := WriteProfile(bus, arguments.Over(cfg.profile), target);
    }

    /** Mode, parameters, target and the barrier cycle. */
    method Prepare(target: int) returns (r: Result<(), Failure>)
      requires bus.Valid()
      modifies bus`trace, bus`between, bus`params, bus`now, bus.sim
      ensures bus.Valid() && old(bus.trace) <= bus.trace
      ensures r.Ok? ==> && NoParamLost(bus.trace, |old(bus.trace)|)
                        && bus.now >= old(bus.now) + Settling() + cfg.cycleDelay
      ensures r.Ok? ==> && bus.params == old(bus.params) + MoveWrites(cfg.profile, target)
                        && cfg.profile.AllFit() && IsInt32(target)
                        && |old(bus.trace)| < |bus.trace| && GotStatus(bus.trace[|bus.trace| - 1])
      ensures r.Err? ==> PreparationFails(|old(bus.trace)|, bus.trace, cfg.profile.AllFit() && IsInt32(target),
                                          cfg.verifyMode, 1, cfg.modeSetTimeout, r.error)
      ensures bus.Closed() && Poised(old(bus.sim.View()), target) ==>
                && (r.Ok? ==> Poised(bus.sim.View(), target) && bus.sim.View().mode == MODE_PROFILE_POSITION
                              && bus.sim.View().regs.targetPosition == target)
                && (r.Ok? <==> cfg.profile.AllFit()) && (r.Err? ==> r.error == ValueRefused)
    {
      hide After, WordsOf, ParamsOf;
      ghost var shown;
      r, shown := EnsureMode(target);
      if r.Err? {
        return;
      }
      NoArguments(cfg.profile);
      ghost var chosen := bus.trace;
      var _ :- Configure(DEFAULT_PROFILE, target);
      ghost var configured := bus.trace;
      r := WriteTarget(bus, target, cfg.cycleDelay);
      if r.Ok? {
        ParamsJoin(old(bus.trace), chosen, configured);
        ParamsJoin(old(bus.trace), configured, bus.trace);
      }
    }

    /** After the acknowledge time has run out: do the positions agree? `shown` is where bit 10
        was read. */
    method PositionsAgree(ghost shown: nat, ghost target: int) returns (r: Result<bool, Failure>)
      requires bus.Valid() && ReachedAt(bus.trace, shown)
      modifies bus`trace, bus`between, bus.sim
      ensures bus.Valid() && old(bus.trace) < bus.trace && OnlyPolling(bus.trace, |old(bus.trace)|)
      ensures r == Ok(true) ==> CheckedPosition(bus.trace, shown, |bus.trace| - 1)
      ensures OtherReads(bus.trace, |old(bus.trace)|)
      ensures if r.Ok? then Compared(bus.trace, |old(bus.trace)|, r.value)
              else r.error == AccessFailed && bus.trace[|bus.trace| - 1].ReadLost?
      ensures bus.Closed() && Pursuing(old(bus.sim.View()), target) ==> r.Ok? && Pursuing(bus.sim.View(), target)
    {
      hide After, WordsOf, ParamsOf;
      var commanded := Poll(bus, TARGET_POSITION, 4, true, target);
      ghost var j := |bus.trace| - 1;
      if bus.Closed() && Pursuing(old(bus.sim.View()), target) {
        PursuitReports(bus.sim.View(), target);
      }
      if commanded.Err? {
        return Err(commanded.error);
      }
      ghost var middle := bus.trace;
      var actual := PollPosition(bus, target);
      PollsJoin(old(bus.trace), middle, bus.trace);
      if actual.Err? {
        return Err(actual.error);
      }
      assert bus.trace[j] == middle[j];
      if Abs(actual.value - commanded.value) <= ACK_WINDOW {
        PositionsCompared(bus.trace, shown, shown, j, |bus.trace| - 1);
        return Ok(true);
      }
      return Ok(false);
    }

    /** One round of the acknowledge wait: a verdict, or none yet. */
    method AckRound(deadline: int, ghost target: int)
      returns (verdict: Option<Result<bool, Failure>>, ghost shown: nat)
      requires bus.Valid()
      modifies bus`trace, bus`between, bus`now, bus.sim
      ensures bus.Valid() && old(bus.trace) < bus.trace && OnlyPolling(bus.trace, |old(bus.trace)|)
      ensures bus.now >= old(bus.now) && (verdict.None? ==> bus.now < deadline)
      ensures LooksWithin(bus.trace, |old(bus.trace)|, old(bus.now), bus.now)
      ensures verdict.Some? && verdict.value.Ok? && verdict.value.value ==>
                Started(bus.trace, |old(bus.trace)|, |bus.trace| - 1)
      ensures |old(bus.trace)| <= shown < |bus.trace| && TicksBetween(bus.trace, |old(bus.trace)|, shown)
      ensures OneLook(bus.trace, |old(bus.trace)|, shown + 1)
      ensures verdict.Some? ==> AckEnds(bus.trace, shown, deadline, verdict.value)
      ensures verdict.Some? && verdict.value.Err? ==> verdict.value.error == AccessFailed
      ensures verdict.None? ==>
                && Undecided(bus.trace, |old(bus.trace)|, |bus.trace|, Unanswered)
                && shown + 1 < |bus.trace| && bus.trace[shown + 1].Clock? && bus.trace[shown + 1].time < deadline
      ensures bus.Closed() && Pursuing(old(bus.sim.View()), target) ==>
                Pursuing(bus.sim.View(), target) && (verdict.Some? ==> verdict.value.Ok?)
    {
      hide After, WordsOf, ParamsOf, Pursuing, Compared, CheckedPosition;
      var sw := PollStatus(bus, target);
      shown := |bus.trace| - 1;
      if sw.Err? {
        return Some(Err(sw.error)), shown;
      }
      if IsAck(sw.value) {
        return Some(Ok(true)), shown;
      }
      var t := bus.Monotonic();
      ghost var timed := bus.trace;
      if t < deadline {
        return None, shown;
      }
      var agree := PositionsAgree(shown, target);
      PollsJoin(old(bus.trace), timed, bus.trace);
      if agree.Ok? && agree.value {
        CheckedFrom(bus.trace, |old(bus.trace)|, shown, |bus.trace| - 1);
      }
      assert bus.trace[shown] == timed[shown] && bus.trace[shown + 1] == timed[shown + 1];
      return Some(agree), shown;
    }

    /** Whether an acknowledge was observed, or the move has visibly completed already. */
    method WaitStartAck(ghost target: int) returns (r: Result<bool, Failure>, ghost shown: nat)
      requires bus.Valid()
      modifies bus`trace, bus`between, bus`now, bus.sim
      ensures bus.Valid() && old(bus.trace) < bus.trace && OnlyPolling(bus.trace, |old(bus.trace)|)
      ensures bus.now >= old(bus.now)
      ensures r.Ok? && r.value ==> Started(bus.trace, |old(bus.trace)|, |bus.trace| - 1)
      ensures AckResult(bus.trace, |old(bus.trace)|, shown, r) && (r.Err? ==> r.error == AccessFailed)
      ensures Paced(bus.trace, |old(bus.trace)|, cfg.pollInterval)
      ensures bus.Closed() && Pursuing(old(bus.sim.View()), target) ==> r.Ok? && Pursuing(bus.sim.View(), target)
    {
      hide After, WordsOf, ParamsOf, AckEnds, Started, PolledUntil;
      ghost var chasing := bus.Closed() && Pursuing(bus.sim.View(), target);
      var started := bus.Monotonic();
      var deadline := started + ACK_TIMEOUT;
      while true
        invariant bus.Valid() && old(bus.trace) < bus.trace && OnlyPolling(bus.trace, |old(bus.trace)|)
        invariant bus.trace[|old(bus.trace)|] == Clock(started)
        invariant PollPending(bus.trace, |old(bus.trace)|, deadline, Unanswered)
        invariant chasing ==> Pursuing(bus.sim.View(), target)
        invariant bus.now >= old(bus.now)
        invariant Rested(bus.trace, |old(bus.trace)|, cfg.pollInterval, bus.now)
        decreases deadline - bus.now
      {
        ghost var before, was := bus.trace, bus.now;
        var verdict;
        verdict, shown := AckRound(deadline, target);
        LookIsPaced(before, bus.trace, |old(bus.trace)|, cfg.pollInterval, shown + 1, was, bus.now);
        PollsJoin(old(bus.trace), before, bus.trace);
        if verdict.Some? {
          if verdict.value.Ok? && verdict.value.value {
            StartedFrom(bus.trace, |old(bus.trace)|, |before|, |bus.trace| - 1);
          }
          PollIsDecided(before, bus.trace, |old(bus.trace)|, shown, ACK_TIMEOUT, Unanswered);
          return verdict.value, shown;
        }
        StillPolling(before, bus.trace, |old(bus.trace)|, shown, deadline, Unanswered);
        bus.Sleep(cfg.pollInterval);
      }
    }

    /** Read the statusword and see whether bit 10 is as awaited, or a fault shows. */
    method Look(awaited: bool, ghost target: int) returns (verdict: Option<Result<(), Failure>>)
      requires bus.Valid()
      modifies bus`trace, bus`between, bus.sim
      ensures bus.Valid() && OnePoll(old(bus.trace), bus.trace)
      ensures if verdict == Some(Err(AccessFailed)) then bus.trace[|bus.trace| - 1] == ReadLost(STATUSWORD, 0)
              else && GotStatus(bus.trace[|bus.trace| - 1])
                   && var sw := bus.trace[|bus.trace| - 1].value;
                      verdict == if HasBit(sw, 0x0400) == awaited then Some(Ok(()))
                                 else if HasBit(sw, 0x0008) then Some(Err(DriveFault)) else None
      ensures bus.Closed() && Pursuing(old(bus.sim.View()), target) ==>
                && Pursuing(bus.sim.View(), target) && (verdict.Some? ==> verdict.value.Ok?)
                && (verdict.Some? && awaited ==> bus.sim.View().axis.position == target)
    {
      var sw := PollStatus(bus, target);
      if sw.Err? {
        return Some(Err(sw.error));
      }
      if HasBit(sw.value, Statusword.TARGET_REACHED) == awaited {
        return Some(Ok(()));
      }
      return if HasBit(sw.value, Statusword.FAULT) then Some(Err(DriveFault)) else None;
    }

    /** One round of waiting for a stale bit 10 to clear; the deadline counts after the read. */
    method ClearRound(deadline: int, ghost target: int)
      returns (verdict: Option<Result<(), Failure>>, ghost shown: nat)
      requires bus.Valid()
      modifies bus`trace, bus`between, bus`now, bus.sim
      ensures bus.Valid() && old(bus.trace) < bus.trace && OnlyPolling(bus.trace, |old(bus.trace)|)
      ensures bus.now >= old(bus.now) && (verdict.None? ==> bus.now < deadline)
      ensures LooksWithin(bus.trace, |old(bus.trace)|, old(bus.now), bus.now)
      ensures bus.trace[|old(bus.trace)|].AbortPolled? && OneLook(bus.trace, |old(bus.trace)|, shown + 1)
      ensures verdict.Some? ==> ClearEnds(bus.trace, |old(bus.trace)|, shown, deadline, verdict.value)
      ensures verdict.Some? && verdict.value.Ok? ==> shown == |bus.trace| - 1 && bus.now == old(bus.now)
      ensures verdict.Some? && verdict.value.Ok? ==>
                && GotStatus(bus.trace[|bus.trace| - 1])
                && !HasBit(bus.trace[|bus.trace| - 1].value, Statusword.TARGET_REACHED)
      ensures verdict.None? ==> && Undecided(bus.trace, |old(bus.trace)|, |bus.trace|, Stale)
                                && AbortFirst(bus.trace, |old(bus.trace)|, |bus.trace|)
                                && shown + 1 < |bus.trace| && bus.trace[shown + 1].Clock?
                                && bus.trace[shown + 1].time < deadline
      ensures bus.Closed() && Pursuing(old(bus.sim.View()), target) ==>
                && Pursuing(bus.sim.View(), target)
                && (verdict.Some? && verdict.value.Err? ==> verdict.value.error in {MoveTimeout, MotionAborted})
    {
      hide After, WordsOf, ParamsOf;
      var aborted := bus.PollAbort();
      if aborted {
        return Some(Err(MotionAborted)), |bus.trace|;
      }
      ghost var begun := bus.trace;
      verdict := Look(false, target);
      ghost var polled := bus.trace;
      shown := |polled| - 1;
      ClearPolls(old(bus.trace), polled);
      PollsJoin(old(bus.trace), begun, polled);
      if verdict.Some? {
        return;
      }
      var t := bus.Monotonic();
      ClearPends(old(bus.trace), polled, t);
      if t >= deadline {
        verdict := NeverCleared(target);
        ClearIsLate(old(bus.trace), polled, t, bus.trace, deadline);
      }
    }

    /** The read for the message of this timeout, which may fail without changing the outcome. */
    method NeverCleared(ghost target: int) returns (verdict: Option<Result<(), Failure>>)
      requires bus.Valid()
      modifies bus`trace, bus`between, bus.sim
      ensures bus.Valid() && old(bus.trace) < bus.trace && OnlyPolling(bus.trace, |old(bus.trace)|)
      ensures OtherReads(bus.trace, |old(bus.trace)|)
      ensures verdict == Some(Err(MoveTimeout))
      ensures bus.Closed() && Pursuing(old(bus.sim.View()), target) ==> Pursuing(bus.sim.View(), target)
    {
      var _ := Poll(bus, MODES_OF_OPERATION_DISPLAY, 1, true, target);
      return Some(Err(MoveTimeout));
    }

    /** One round of waiting for bit 10; the deadline counts before the read. */
    method ReachedRound(deadline: int, ghost target: int)
      returns (verdict: Option<Result<(), Failure>>, ghost shown: nat)
      requires bus.Valid()
      modifies bus`trace, bus`between, bus`now, bus.sim
      ensures bus.Valid() && old(bus.trace) < bus.trace && OnlyPolling(bus.trace, |old(bus.trace)|)
      ensures bus.now >= old(bus.now) && (verdict.None? ==> bus.now < deadline)
      ensures LooksWithin(bus.trace, |old(bus.trace)|, old(bus.now), bus.now)
      ensures bus.trace[|old(bus.trace)|].AbortPolled? && OneLook(bus.trace, |old(bus.trace)|, |old(bus.trace)| + 1)
      ensures verdict.Some? ==> ReachEnds(bus.trace, |old(bus.trace)|, shown, deadline, verdict.value)
      ensures verdict.Some? && verdict.value.Ok? ==>
                shown == |bus.trace| - 1 && ReachedAt(bus.trace, |bus.trace| - 1)
      ensures verdict.None? ==> && Undecided(bus.trace, |old(bus.trace)|, |bus.trace|, Underway)
                                && AbortFirst(bus.trace, |old(bus.trace)|, |bus.trace|)
                                && |old(bus.trace)| + 1 < |bus.trace| && bus.trace[|old(bus.trace)| + 1].Clock?
                                && bus.trace[|old(bus.trace)| + 1].time < deadline
      ensures bus.Closed() && Pursuing(old(bus.sim.View()), target) ==>
                && Pursuing(bus.sim.View(), target)
                && (verdict.Some? && verdict.value.Ok? ==> bus.sim.View().axis.position == target)
                && (verdict.Some? && verdict.value.Err? ==> verdict.value.error in {MoveTimeout, MotionAborted})
    {
      hide After, WordsOf, ParamsOf;
      var aborted := bus.PollAbort();
      if aborted {
        return Some(Err(MotionAborted)), |bus.trace|;
      }
      var roundStart := bus.Monotonic();
      ghost var started := bus.trace;
      verdict := Look(true, target);
      ghost var polled := bus.trace;
      shown := |polled| - 1;
      ReachPolls(old(bus.trace), roundStart, polled);
      PollsJoin(old(bus.trace), started, polled);
      if verdict.None? && roundStart >= deadline {
        verdict := Expired(target);
        RoundGoesOn(old(bus.trace), polled, bus.trace, |old(bus.trace)|);
      }
    }

    /** The reads for the message of a timeout, two of which can fail themselves. */
    method Expired(ghost target: int) returns (verdict: Option<Result<(), Failure>>)
      requires bus.Valid()
      modifies bus`trace, bus`between, bus.sim
      ensures bus.Valid() && old(bus.trace) < bus.trace && OnlyPolling(bus.trace, |old(bus.trace)|)
      ensures OtherReads(bus.trace, |old(bus.trace)|)
      ensures || verdict == Some(Err(MoveTimeout))
              || (verdict == Some(Err(AccessFailed)) && bus.trace[|bus.trace| - 1].ReadLost?)
      ensures bus.Closed() && Pursuing(old(bus.sim.View()), target) ==>
                Pursuing(bus.sim.View(), target) && verdict == Some(Err(MoveTimeout))
    {
      var commanded := Poll(bus, TARGET_POSITION, 4, true, target);
      if bus.Closed() && Pursuing(old(bus.sim.View()), target) {
        PursuitReports(bus.sim.View(), target);
      }
      if commanded.Err? {
        return Some(Err(commanded.error));
      }
      var actual := PollPosition(bus, target);
      if actual.Err? {
        return Some(Err(actual.error));
      }
      var _ := Poll(bus, MODES_OF_OPERATION_DISPLAY, 1, true, target);
      return Some(Err(MoveTimeout));
    }

    /** With no acknowledge seen, bit 10 has to clear before it counts. `start` is where the time of
        the whole wait was taken. */
    method WaitCleared(deadline: int, ghost timeout: int, ghost start: nat, ghost target: int)
      returns (r: Result<(), Failure>, ghost round: nat, ghost shown: nat)
      requires bus.Valid() && start == |bus.trace| - 1 && bus.trace[start] == Clock(deadline - timeout)
      modifies bus`trace, bus`between, bus`now, bus.sim
      ensures bus.Valid() && old(bus.trace) < bus.trace && OnlyPolling(bus.trace, |old(bus.trace)|)
      ensures bus.now >= old(bus.now)
      ensures ClearResult(bus.trace, start, round, shown, timeout, r)
      ensures Paced(bus.trace, start, cfg.pollInterval)
      ensures r.Ok? ==> Rested(bus.trace, start, cfg.pollInterval, bus.now)
      ensures bus.trace[start] == Clock(deadline - timeout) && (r.Ok? ==> Early(bus.trace, start, deadline))
      ensures r.Ok? ==> GotStatus(bus.trace[|bus.trace| - 1])
                        && !HasBit(bus.trace[|bus.trace| - 1].value, Statusword.TARGET_REACHED)
      ensures bus.Closed() && Pursuing(old(bus.sim.View()), target) ==>
                Pursuing(bus.sim.View(), target) && (r.Err? ==> r.error in {MoveTimeout, MotionAborted})
    {
      hide After, WordsOf, ParamsOf, ClearEnds, Decided;
      ghost var chasing := bus.Closed() && Pursuing(bus.sim.View(), target);
      while true
        invariant bus.Valid() && old(bus.trace) <= bus.trace && OnlyPolling(bus.trace, |old(bus.trace)|)
        invariant bus.trace[start] == Clock(deadline - timeout)
        invariant Waiting(bus.trace, start, start + 1, deadline, Stale)
        invariant chasing ==> Pursuing(bus.sim.View(), target)
        invariant bus.now >= old(bus.now)
        invariant Rested(bus.trace, start, cfg.pollInterval, bus.now)
        decreases deadline - bus.now
      {
        ghost var before, was := bus.trace, bus.now;
        var verdict;
        verdict, shown := ClearRound(deadline, target);
        LookIsPaced(before, bus.trace, start, cfg.pollInterval, shown + 1, was, bus.now);
        PollsJoin(old(bus.trace), before, bus.trace);
        if verdict.Some? {
          WaitIsDecided(before, bus.trace, start, start + 1, timeout, Stale, shown + 1);
          if verdict.value.Ok? {
            LookStaysEarly(before, bus.trace, start, deadline, shown + 1);
            NoLookRests(before, bus.trace, start, cfg.pollInterval, bus.now);
          }
          return verdict.value, |before|, shown;
        }
        StillWaiting(before, bus.trace, start, start + 1, deadline, Stale, shown + 1);
        bus.Sleep(cfg.pollInterval);
      }
    }

    /** The rest of the wait, for bit 10 itself. */
    method WaitReached(deadline: int, ghost timeout: int, ghost start: nat, ghost target: int)
      returns (r: Result<(), Failure>, ghost round: nat, ghost reached: nat)
      requires bus.Valid() && start < |bus.trace| && bus.trace[start] == Clock(deadline - timeout)
      requires Early(bus.trace, start, deadline)
      requires Rested(bus.trace, start, cfg.pollInterval, bus.now)
      modifies bus`trace, bus`between, bus`now, bus.sim
      ensures bus.Valid() && old(bus.trace) < bus.trace && OnlyPolling(bus.trace, |old(bus.trace)|)
      ensures bus.now >= old(bus.now)
      ensures ReachResult(bus.trace, start, |old(bus.trace)|, round, reached, timeout, r)
      ensures Paced(bus.trace, start, cfg.pollInterval)
      ensures r.Ok? ==> ReachedAt(bus.trace, |bus.trace| - 1)
      ensures bus.Closed() && Pursuing(old(bus.sim.View()), target) ==>
                && Pursuing(bus.sim.View(), target) && (r.Ok? ==> bus.sim.View().axis.position == target)
                && (r.Err? ==> r.error in {MoveTimeout, MotionAborted})
    {
      hide After, WordsOf, ParamsOf, ReachEnds, Decided;
      ghost var chasing := bus.Closed() && Pursuing(bus.sim.View(), target);
      while true
        invariant bus.Valid() && old(bus.trace) <= bus.trace && OnlyPolling(bus.trace, |old(bus.trace)|)
        invariant bus.trace[start] == Clock(deadline - timeout)
        invariant Waiting(bus.trace, start, |old(bus.trace)|, deadline, Underway)
        invariant chasing ==> Pursuing(bus.sim.View(), target)
        invariant bus.now >= old(bus.now)
        invariant Rested(bus.trace, start, cfg.pollInterval, bus.now)
        decreases deadline - bus.now
      {
        ghost var before, was := bus.trace, bus.now;
        var verdict;
        ghost var shown;
        verdict, shown := ReachedRound(deadline, target);
        LookIsPaced(before, bus.trace, start, cfg.pollInterval, |before| + 1, was, bus.now);
        PollsJoin(old(bus.trace), before, bus.trace);
        if verdict.Some? {
          WaitIsDecided(before, bus.trace, start, |old(bus.trace)|, timeout, Underway, |before| + 1);
          return verdict.value, |before|, shown;
        }
        StillWaiting(before, bus.trace, start, |old(bus.trace)|, deadline, Underway, |before| + 1);
        bus.Sleep(cfg.pollInterval);
      }
    }

    /** `ack` is where a bit 10 that was not trusted was seen to clear. */
    method WaitTargetReached(timeout: int, ackSeen: bool, ghost target: int)
      returns (r: Result<(), Failure>, ghost ack: nat, ghost s: Sights)
      requires bus.Valid()
      modifies bus`trace, bus`between, bus`now, bus.sim
      ensures bus.Valid() && old(bus.trace) < bus.trace && OnlyPolling(bus.trace, |old(bus.trace)|)
      ensures bus.now >= old(bus.now)
      ensures r.Ok? ==> ReachedAt(bus.trace, |bus.trace| - 1)
      ensures r.Ok? && !ackSeen ==>
                |old(bus.trace)| <= ack < |bus.trace| - 1 && Started(bus.trace, |old(bus.trace)|, ack)
      ensures WaitResult(bus.trace, |old(bus.trace)|, s, timeout, ackSeen, r)
      ensures Paced(bus.trace, |old(bus.trace)|, cfg.pollInterval)
      ensures r.Err? ==> r.error in {AccessFailed, DriveFault, MoveTimeout, MotionAborted}
      ensures bus.Closed() && Pursuing(old(bus.sim.View()), target) ==>
                && Pursuing(bus.sim.View(), target) && (r.Ok? ==> bus.sim.View().axis.position == target)
                && (r.Err? ==> r.error in {MoveTimeout, MotionAborted})
    {
      hide After, WordsOf, ParamsOf;
      ack, s := 0, UNSEEN;
      var started := bus.Monotonic();
      var deadline := started + timeout;
      ghost var begun, clearRound, clearAt := bus.trace, 0, 0;
      if !ackSeen {
        r, clearRound, clearAt := WaitCleared(deadline, timeout, |old(bus.trace)|, target);
        ack := |bus.trace| - 1;
        PollsJoin(old(bus.trace), begun, bus.trace);
        if r.Err? {
          s := Sights(bus.trace, clearRound, clearAt, 0, 0);
          return;
        }
      }
      ghost var cleared := bus.trace;
      ghost var round, reached;
      r, round, reached := WaitReached(deadline, timeout, |old(bus.trace)|, target);
      s := Sights(cleared, clearRound, clearAt, round, reached);
      PollsJoin(old(bus.trace), cleared, bus.trace);
    }

    /** The acknowledge and the final wait, after the pulse. */
    method Finish(timeout: int, ghost target: int, ghost pulse: Witness)
      returns (r: Result<(), Failure>, ghost w: Witness)
      requires bus.Valid()
      modifies bus`trace, bus`between, bus`now, bus.sim
      ensures bus.Valid() && old(bus.trace) <= bus.trace && OnlyPolling(bus.trace, |old(bus.trace)|)
      ensures bus.now >= old(bus.now)
      ensures w.edge == pulse.edge && w.release == pulse.release && w.reached == |bus.trace| - 1
      ensures r.Ok? ==> && |old(bus.trace)| <= w.ack < |bus.trace| - 1 && Started(bus.trace, |old(bus.trace)|, w.ack)
                        && ReachedAt(bus.trace, |bus.trace| - 1)
      ensures FinishResult(bus.trace, |old(bus.trace)|, w, timeout, r)
      ensures r.Err? ==> r.error in {AccessFailed, DriveFault, MoveTimeout, MotionAborted}
      ensures bus.Closed() && Pursuing(old(bus.sim.View()), target) ==>
                && Pursuing(bus.sim.View(), target) && (r.Ok? ==> bus.sim.View().axis.position == target)
                && (r.Err? ==> r.error in {MoveTimeout, MotionAborted})
    {
      hide After, WordsOf, ParamsOf, AckResult, WaitResult, ReachedAt;
      var seen;
      ghost var shown;
      seen, shown := WaitStartAck(target);
      ghost var ack, waited := |bus.trace| - 1, bus.trace;
      if seen.Err? {
        return Err(seen.error), pulse.(ack := ack, reached := ack, acked := waited, ackAt := shown, answer := seen);
      }
      ghost var cleared, s;
      r, cleared, s := WaitTargetReached(timeout, seen.value, target);
      PollsJoin(old(bus.trace), waited, bus.trace);
      if r.Ok? {
        if seen.value {
          StartedStays(waited, bus.trace, |old(bus.trace)|, ack);
        } else {
          ack := cleared;
          StartedFrom(bus.trace, |old(bus.trace)|, |waited|, ack);
        }
      }
      w := pulse.(ack := ack, reached := |bus.trace| - 1, acked := waited, ackAt := shown, answer := seen, sights := s);
    }

    /** The packaged move. Against any drive: a normal return means that, after the whole pulse,
        bit 12 was read set or bit 10 was read clear, or bit 10 was read set and the positions
        agreed within 250, and that after this a statusword with bit 10 was read.
        On the simulator, alone, poised: a normal return means the axis stands exactly on the
        target. */
    method MoveTo(target: int, relative: bool, immediate: bool, timeout: Option<int>)
      returns (r: Result<(), Failure>, ghost w: Witness, ghost words: seq<int>)
      requires bus.Valid()
      modifies bus`trace, bus`between, bus`words, bus`params, bus`now, bus.sim
      ensures bus.Valid() && old(bus.trace) <= bus.trace && bus.words == old(bus.words) + words
      ensures var (setWord, clearWord) := Controlword.PulseNewSetPoint(Controlword.PositionBase(relative, immediate));
              && (words == [] || words == [setWord] || words == [setWord, clearWord])
              && PulseResult(r, old(bus.trace), w, words, setWord, clearWord,
                             if timeout.Some? then timeout.value else cfg.moveTimeout)
      ensures |words| == 2 ==> AfterBarrier(bus.trace, |old(bus.trace)|, w.edge)
      ensures words != [] ==> && bus.params == old(bus.params) + MoveWrites(cfg.profile, target)
                              && NoParamLost(bus.trace, |old(bus.trace)|)
                              && bus.now >= old(bus.now) + Settling() + cfg.cycleDelay
      ensures words == [] ==> && r.Err?
                              && (r.error == NegativeTarget
                                  || PreparationFails(|old(bus.trace)|, bus.trace,
                                                      cfg.profile.AllFit() && IsInt32(target),
                                                      cfg.verifyMode, 1, cfg.modeSetTimeout, r.error))
      ensures r == Err(NegativeTarget) <==> !relative && target < 0
      ensures bus.Closed() && !relative && Poised(old(bus.sim.View()), target) ==>
                && (r.Ok? ==> bus.sim.View().axis.position == target && Pursuing(bus.sim.View(), target))
                && (r.Err? ==> r.error in {NegativeTarget, ValueRefused, MoveTimeout, MotionAborted})
                && (r == Err(ValueRefused) <==> target >= 0 && !cfg.profile.AllFit())
    {
      hide After, WordsOf, ParamsOf;
      w, words := NOTHING, [];
      if !relative && target < 0 {
        return Err(NegativeTarget), w, words;
      }
      var prepared := Prepare(target);
      var setWord, clearWord := StartWords(relative, immediate);
      LostWordIsLast(old(bus.trace), bus.trace, [], setWord);
      LostWordIsLast(old(bus.trace), bus.trace, [], clearWord);
      if prepared.Err? {
        return Err(prepared.error), w, words;
      }
      var budget := if timeout.Some? then timeout.value else cfg.moveTimeout;
      ghost var ready := bus.trace;
      r, w, words := StartAndFinish(setWord, clearWord, target, budget);
      ParamsJoin(old(bus.trace), ready, bus.trace);
      if words == [setWord, clearWord] {
        BarrierHolds(ready, bus.trace, |old(bus.trace)|, w.edge);
      }
    }

    /** How the pulse of a move can be cut short, and what a completed one means. */
    ghost predicate PulseResult(r: Result<(), Failure>, before: seq<Event>, w: Witness, words: seq<int>,
                                setWord: int, clearWord: int, timeout: int)
      reads bus
    {
      && (words == [setWord] <==> LostAtEnd(before, bus.trace, setWord))
      && (words == [setWord] ==> r == Err(AccessFailed))
      && (words == [setWord, clearWord] ==>
            || LostAtEnd(before, bus.trace, clearWord)
            || (&& Pulsed(bus.trace, |before|, setWord, clearWord, w.edge, w.release)
                && FinishResult(bus.trace, w.release + 1, w, timeout, r)))
      && (LostAtEnd(before, bus.trace, clearWord) ==> words == [setWord, clearWord] && r == Err(AccessFailed))
      && (r.Ok? ==> words == [setWord, clearWord] && Completed(bus.trace, |before|, setWord, clearWord, w))
    }

    method StartAndFinish(setWord: int, clearWord: int, target: int, timeout: int)
      returns (r: Result<(), Failure>, ghost w: Witness, ghost words: seq<int>)
      requires bus.Valid() && IsWord(setWord) && Holds(setWord) && HasBit(setWord, Controlword.NEW_SET_POINT)
      requires IsWord(clearWord) && Holds(clearWord) && !HasBit(clearWord, Controlword.NEW_SET_POINT)
      modifies bus`trace, bus`between, bus`words, bus`now, bus.sim
      ensures bus.Valid() && old(bus.trace) < bus.trace && bus.words == old(bus.words) + words
      ensures NoParamLost(bus.trace, |old(bus.trace)|) && bus.now >= old(bus.now)
      ensures words == [setWord] || words == [setWord, clearWord]
      ensures PulseResult(r, old(bus.trace), w, words, setWord, clearWord, timeout)
      ensures words == [setWord, clearWord] ==>
                |old(bus.trace)| <= w.edge < |bus.trace| && TicksBetween(bus.trace, |old(bus.trace)|, w.edge)
      ensures r.Err? ==> r.error in {AccessFailed, DriveFault, MoveTimeout, MotionAborted}
      ensures bus.Closed() && !HasBit(setWord, Controlword.ABS_REL) && Poised(old(bus.sim.View()), target)
              && old(bus.sim.View()).mode == MODE_PROFILE_POSITION
              && old(bus.sim.View()).regs.targetPosition == target ==>
                && (r.Ok? ==> bus.sim.View().axis.position == target && Pursuing(bus.sim.View(), target))
                && (r.Err? ==> r.error in {MoveTimeout, MotionAborted})
    {
      hide After, WordsOf, ParamsOf, AckResult, WaitResult, Started, ReachedAt;
      ghost var edge, release;
      r, edge, release, words := Pulse(setWord, clearWord, target);
      w := NOTHING.(edge := edge, release := release);
      if r.Err? {
        return;
      }
      ghost var pulsed := bus.trace;
      r, w := Finish(timeout, target, w);
      NothingLostPolling(old(bus.trace), pulsed, bus.trace, setWord);
      NothingLostPolling(old(bus.trace), pulsed, bus.trace, clearWord);
      ParamsJoin(old(bus.trace), pulsed, bus.trace);
    }

    /** Raise bit 4, wait a cycle, release it; nothing takes back a start whose release raises. */
    method Pulse(setWord: int, clearWord: int, ghost target: int)
      returns (r: Result<(), Failure>, ghost edge: nat, ghost release: nat, ghost words: seq<int>)
      requires bus.Valid() && IsWord(setWord) && Holds(setWord) && HasBit(setWord, Controlword.NEW_SET_POINT)
      requires IsWord(clearWord) && Holds(clearWord) && !HasBit(clearWord, Controlword.NEW_SET_POINT)
      modifies bus`trace, bus`between, bus`words, bus`now, bus.sim
      ensures bus.Valid() && old(bus.trace) < bus.trace && bus.words == old(bus.words) + words
      ensures NoParamLost(bus.trace, |old(bus.trace)|) && bus.now >= old(bus.now)
      ensures words == [setWord] || words == [setWord, clearWord]
      ensures words == [setWord] <==> LostAtEnd(old(bus.trace), bus.trace, setWord)
      ensures words == [setWord, clearWord] && r.Err? <==> LostAtEnd(old(bus.trace), bus.trace, clearWord)
      ensures r.Err? ==> r.error == AccessFailed
      ensures r.Ok? ==> bus.now >= old(bus.now) + cfg.cycleDelay
      ensures words == [setWord, clearWord] ==>
                |old(bus.trace)| <= edge < |bus.trace| && TicksBetween(bus.trace, |old(bus.trace)|, edge)
      ensures r.Ok? ==> && words == [setWord, clearWord] && release == |bus.trace| - 1
                        && Pulsed(bus.trace, |old(bus.trace)|, setWord, clearWord, edge, release)
      ensures bus.Closed() && !HasBit(setWord, Controlword.ABS_REL) && Poised(old(bus.sim.View()), target)
              && old(bus.sim.View()).mode == MODE_PROFILE_POSITION
              && old(bus.sim.View()).regs.targetPosition == target ==>
                r.Ok? && Pursuing(bus.sim.View(), target)
    {
      hide After, WordsOf, ParamsOf;
      edge, release, words := 0, 0, [setWord];
      r := RaiseSetPoint(bus, setWord, target);
      if r.Err? {
        return;
      }
      edge := |bus.trace| - 1;
      bus.Sleep(cfg.cycleDelay);
      words := [setWord, clearWord];
      ghost var raised := bus.trace;
      r := ReleaseSetPoint(bus, clearWord, target);
      release := |bus.trace| - 1;
      ParamsJoin(old(bus.trace), raised, bus.trace);
    }
  }

  /** Polling after an acknowledged word leaves no lost word at the end. */
  lemma NothingLostPolling(before: seq<Event>, middle: seq<Event>, after: seq<Event>, word: int)
    requires before < middle <= after && OnlyPolling(after, |middle|) && middle[|middle| - 1].Wrote?
    ensures !LostAtEnd(before, after, word)
  {
    if middle == after {
      assert after[|after| - 1].Wrote?;
    } else {
      assert Polling(after[|after| - 1]);
    }
  }

  lemma CheckedFrom(trace: seq<Event>, from: nat, later: nat, k: nat)
    requires from <= later && CheckedPosition(trace, later, k)
    ensures CheckedPosition(trace, from, k)
  {
  }

  lemma StartedFrom(trace: seq<Event>, from: nat, later: nat, k: nat)
    requires from <= later && Started(trace, later, k)
    ensures Started(trace, from, k)
  {
    if CheckedPosition(trace, later, k) {
      CheckedFrom(trace, from, later, k);
    }
  }
}
